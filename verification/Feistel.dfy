/** The block cipher of kext/crypt.c: sixteen Feistel rounds between a table-driven initial and
    final permutation (FIPS PUB 46-3, sections "Enciphering" and "Deciphering").
    The S-box contents are arbitrary; a 64-entry table is a total function on bv6. */
module Feistel {

  datatype Boxes = Boxes(s0: bv6 -> bv32, s1: bv6 -> bv32, s2: bv6 -> bv32, s3: bv6 -> bv32,
                         s4: bv6 -> bv32, s5: bv6 -> bv32, s6: bv6 -> bv32, s7: bv6 -> bv32)

  datatype Halves = Halves(left: bv32, right: bv32)

  /** One eight-byte block. */
  datatype Text = Text(b0: bv8, b1: bv8, b2: bv8, b3: bv8, b4: bv8, b5: bv8, b6: bv8, b7: bv8)

  type RoundKey = k: seq<bv6> | |k| == 8 witness [0, 0, 0, 0, 0, 0, 0, 0]

  // ----- tables of kext/crypt.c -----

  /** iptab: bit 0 of the index selects bit 15, bit 2 selects bit 7. */
  function IpTab(n: bv32): bv32 { ((n & 1) << 15) | (((n >> 2) & 1) << 7) }

  /** fptab: bits 0 to 3 of the index select bits 31, 23, 15 and 7. */
  function FpTab(n: bv32): bv32 {
    ((n & 1) << 31) | (((n >> 1) & 1) << 23) | (((n >> 2) & 1) << 15) | (((n >> 3) & 1) << 7)
  }

  /** The entries as the source lists them. */
  lemma TableEntries()
    ensures [IpTab(0), IpTab(1), IpTab(2), IpTab(3)] == [0, 0x8000, 0, 0x8000]
    ensures [IpTab(4), IpTab(5), IpTab(6), IpTab(7)] == [0x80, 0x8080, 0x80, 0x8080]
    ensures [FpTab(0), FpTab(1), FpTab(2), FpTab(3)] == [0, 0x80000000, 0x00800000, 0x80800000]
    ensures [FpTab(4), FpTab(5), FpTab(6), FpTab(7)] == [0x00008000, 0x80008000, 0x00808000, 0x80808000]
    ensures [FpTab(8), FpTab(9), FpTab(10), FpTab(11)] == [0x00000080, 0x80000080, 0x00800080, 0x80800080]
    ensures [FpTab(12), FpTab(13), FpTab(14), FpTab(15)] == [0x00008080, 0x80008080, 0x00808080, 0x80808080]
  {}

  // ----- the permutations -----

  /** Bits 0, 2, 4 and 6 of x, to positions 31, 23, 15 and 7. */
  function Scatter(x: bv32): bv32 {
    ((x & 1) << 31) | (((x >> 2) & 1) << 23) | (((x >> 4) & 1) << 15) | (((x >> 6) & 1) << 7)
  }

  function LowBits(b0: bv8, b1: bv8, b2: bv8, b3: bv8, b4: bv8, b5: bv8, b6: bv8, b7: bv8): bv32 {
    0 | Scatter(b0 as bv32) | (Scatter(b1 as bv32) >> 1) | (Scatter(b2 as bv32) >> 2) | (Scatter(b3 as bv32) >> 3)
    | (Scatter(b4 as bv32) >> 4) | (Scatter(b5 as bv32) >> 5) | (Scatter(b6 as bv32) >> 6) | (Scatter(b7 as bv32) >> 7)
  }

  function HighBits(b0: bv8, b1: bv8, b2: bv8, b3: bv8, b4: bv8, b5: bv8, b6: bv8, b7: bv8): bv32 {
    0 | Scatter((b0 as bv32) >> 1) | (Scatter((b1 as bv32) >> 1) >> 1) | (Scatter((b2 as bv32) >> 1) >> 2)
    | (Scatter((b3 as bv32) >> 1) >> 3) | (Scatter((b4 as bv32) >> 1) >> 4) | (Scatter((b5 as bv32) >> 1) >> 5)
    | (Scatter((b6 as bv32) >> 1) >> 6) | (Scatter((b7 as bv32) >> 1) >> 7)
  }

  function IpLow(t: Text): bv32 { LowBits(t.b0, t.b1, t.b2, t.b3, t.b4, t.b5, t.b6, t.b7) }
  function IpHigh(t: Text): bv32 { HighBits(t.b0, t.b1, t.b2, t.b3, t.b4, t.b5, t.b6, t.b7) }

  /** The lowest bits of eight bytes, that of b0 on top. */
  function Row(b0: bv8, b1: bv8, b2: bv8, b3: bv8, b4: bv8, b5: bv8, b6: bv8, b7: bv8): bv32 {
    (((b0 & 1) as bv32) << 7) | (((b1 & 1) as bv32) << 6) | (((b2 & 1) as bv32) << 5) | (((b3 & 1) as bv32) << 4)
    | (((b4 & 1) as bv32) << 3) | (((b5 & 1) as bv32) << 2) | (((b6 & 1) as bv32) << 1) | ((b7 & 1) as bv32)
  }

  /** Bits n of all bytes of a block. */
  function RowAt(t: Text, n: bv8): bv32
    requires n < 8
  {
    Row(t.b0 >> n, t.b1 >> n, t.b2 >> n, t.b3 >> n, t.b4 >> n, t.b5 >> n, t.b6 >> n, t.b7 >> n)
  }

  /** The initial permutation turns rows of bits into columns: the low half is made of bits 0, 2, 4 and 6 of all
      bytes, one octet for each, the high half of bits 1, 3, 5 and 7. */
  lemma IpTransposes(t: Text)
    ensures IpLow(t) == (RowAt(t, 0) << 24) | (RowAt(t, 2) << 16) | (RowAt(t, 4) << 8) | RowAt(t, 6)
    ensures IpHigh(t) == (RowAt(t, 1) << 24) | (RowAt(t, 3) << 16) | (RowAt(t, 5) << 8) | RowAt(t, 7)
  {}

  /** The even nibbles of both halves; over (l >> 4, r >> 4), the odd ones. */
  function Word8(l: bv32, r: bv32): bv32 {
    0 | FpTab(r) | (FpTab(r >> 8) >> 2) | (FpTab(r >> 16) >> 4) | (FpTab(r >> 24) >> 6)
    | (FpTab(l) >> 1) | (FpTab(l >> 8) >> 3) | (FpTab(l >> 16) >> 5) | (FpTab(l >> 24) >> 7)
  }

  function LowOctet(t: bv32): bv8 { (t & 0xff) as bv8 }
  function Octets(v0: bv32, v1: bv32): Text {
    Text(LowOctet(v0), LowOctet(v0 >> 8), LowOctet(v0 >> 16), LowOctet(v0 >> 24),
         LowOctet(v1), LowOctet(v1 >> 8), LowOctet(v1 >> 16), LowOctet(v1 >> 24))
  }

  /** The odd nibbles of both halves make the first four bytes, the even ones the last four. */
  function Fp(l: bv32, r: bv32): Text { Octets(Word8(l >> 4, r >> 4), Word8(l, r)) }

  lemma BitsBack(b0: bv8, b1: bv8, b2: bv8, b3: bv8, b4: bv8, b5: bv8, b6: bv8, b7: bv8, l: bv32, r: bv32, v0: bv32,
      v1: bv32)
    requires l == LowBits(b0, b1, b2, b3, b4, b5, b6, b7) && r == HighBits(b0, b1, b2, b3, b4, b5, b6, b7)
    requires v0 == Word8(l >> 4, r >> 4) && v1 == Word8(l, r)
    ensures LowOctet(v0) == b0 && LowOctet(v0 >> 8) == b1 && LowOctet(v0 >> 16) == b2 && LowOctet(v0 >> 24) == b3
    ensures LowOctet(v1) == b4 && LowOctet(v1 >> 8) == b5 && LowOctet(v1 >> 16) == b6 && LowOctet(v1 >> 24) == b7
  {}

  /** The final permutation undoes the initial one, and the initial one undoes the final one. */
  lemma FpUndoesIp(t: Text)
    ensures Fp(IpLow(t), IpHigh(t)) == t
  {
    var l, r := IpLow(t), IpHigh(t);
    BitsBack(t.b0, t.b1, t.b2, t.b3, t.b4, t.b5, t.b6, t.b7, l, r, Word8(l >> 4, r >> 4), Word8(l, r));
  }

  lemma LowUndoesFp(l: bv32, r: bv32)
    ensures IpLow(Fp(l, r)) == l
  {}

  lemma HighUndoesFp(l: bv32, r: bv32)
    ensures IpHigh(Fp(l, r)) == r
  {}

  // ----- the rounds -----

  // The indices into the eight tables: six bits of the half against six bits of the key.

  function Index0(right: bv32, k: bv6): bv6 { ((((right << 1) | ((right >> 31) & 1)) & 0x3f) as bv6) ^ k }
  function Index1(right: bv32, k: bv6): bv6 { (((((right << 1) | ((right >> 31) & 1)) >> 4) & 0x3f) as bv6) ^ k }
  function Index2(right: bv32, k: bv6): bv6 { (((((right << 1) | ((right >> 31) & 1)) >> 8) & 0x3f) as bv6) ^ k }
  function Index3(right: bv32, k: bv6): bv6 { (((((right << 1) | ((right >> 31) & 1)) >> 12) & 0x3f) as bv6) ^ k }
  function Index4(right: bv32, k: bv6): bv6 { (((((right << 1) | ((right >> 31) & 1)) >> 16) & 0x3f) as bv6) ^ k }
  function Index5(right: bv32, k: bv6): bv6 { (((((right << 1) | ((right >> 31) & 1)) >> 20) & 0x3f) as bv6) ^ k }
  function Index6(right: bv32, k: bv6): bv6 { (((((right << 1) | ((right >> 31) & 1)) >> 24) & 0x3f) as bv6) ^ k }
  function Index7(right: bv32, k: bv6): bv6 { ((((right & 1) << 5) | ((right >> 27) & 0x1f)) as bv6) ^ k }

  function Union(x0: bv32, x1: bv32, x2: bv32, x3: bv32, x4: bv32, x5: bv32, x6: bv32, x7: bv32): bv32 {
    x0 | x1 | x2 | x3 | x4 | x5 | x6 | x7
  }

  /** The combined S and P boxes at eight indices. */
  function Boxed(b: Boxes, i0: bv6, i1: bv6, i2: bv6, i3: bv6, i4: bv6, i5: bv6, i6: bv6, i7: bv6): bv32 {
    Union(b.s0(i0), b.s1(i1), b.s2(i2), b.s3(i3), b.s4(i4), b.s5(i5), b.s6(i6), b.s7(i7))
  }

  /** What one round makes of a half. */
  function Mangle(b: Boxes, right: bv32, k: RoundKey): bv32 {
    Boxed(b, Index0(right, k[0]), Index1(right, k[1]), Index2(right, k[2]), Index3(right, k[3]),
          Index4(right, k[4]), Index5(right, k[5]), Index6(right, k[6]), Index7(right, k[7]))
  }

  // What each S-box sees, and where.

  function BoxAt(b: Boxes, j: nat): bv6 -> bv32
    requires j < 8
  {
    match j
    case 0 => b.s0
    case 1 => b.s1
    case 2 => b.s2
    case 3 => b.s3
    case 4 => b.s4
    case 5 => b.s5
    case 6 => b.s6
    case 7 => b.s7
  }

  /** The six bits of the half from bit 4 * j - 1 on, bit 31 being followed by bit 0. */
  function SixBits(right: bv32, j: nat): bv6
    requires j < 8
  {
    match j
    case 0 => (((right >> 31) | (right << 1)) & 0x3f) as bv6
    case 1 => ((right >> 3) & 0x3f) as bv6
    case 2 => ((right >> 7) & 0x3f) as bv6
    case 3 => ((right >> 11) & 0x3f) as bv6
    case 4 => ((right >> 15) & 0x3f) as bv6
    case 5 => ((right >> 19) & 0x3f) as bv6
    case 6 => ((right >> 23) & 0x3f) as bv6
    case 7 => (((right >> 27) | (right << 5)) & 0x3f) as bv6
  }

  lemma Sees0(right: bv32, k: bv6) ensures Index0(right, k) == SixBits(right, 0) ^ k {}
  lemma Sees1(right: bv32, k: bv6) ensures Index1(right, k) == SixBits(right, 1) ^ k {}
  lemma Sees2(right: bv32, k: bv6) ensures Index2(right, k) == SixBits(right, 2) ^ k {}
  lemma Sees3(right: bv32, k: bv6) ensures Index3(right, k) == SixBits(right, 3) ^ k {}
  lemma Sees4(right: bv32, k: bv6) ensures Index4(right, k) == SixBits(right, 4) ^ k {}
  lemma Sees5(right: bv32, k: bv6) ensures Index5(right, k) == SixBits(right, 5) ^ k {}
  lemma Sees6(right: bv32, k: bv6) ensures Index6(right, k) == SixBits(right, 6) ^ k {}
  lemma Sees7(right: bv32, k: bv6) ensures Index7(right, k) == SixBits(right, 7) ^ k {}

  ghost predicate Silent(s: bv6 -> bv32) { forall x: bv6 :: s(x) == 0 }

  lemma OrNothing(x0: bv32, x1: bv32, x2: bv32, x3: bv32, x4: bv32, x5: bv32, x6: bv32, x7: bv32)
    ensures x1 == x2 == x3 == x4 == x5 == x6 == x7 == 0 ==> x0 | x1 | x2 | x3 | x4 | x5 | x6 | x7 == x0
    ensures x0 == x2 == x3 == x4 == x5 == x6 == x7 == 0 ==> x0 | x1 | x2 | x3 | x4 | x5 | x6 | x7 == x1
    ensures x0 == x1 == x3 == x4 == x5 == x6 == x7 == 0 ==> x0 | x1 | x2 | x3 | x4 | x5 | x6 | x7 == x2
    ensures x0 == x1 == x2 == x4 == x5 == x6 == x7 == 0 ==> x0 | x1 | x2 | x3 | x4 | x5 | x6 | x7 == x3
    ensures x0 == x1 == x2 == x3 == x5 == x6 == x7 == 0 ==> x0 | x1 | x2 | x3 | x4 | x5 | x6 | x7 == x4
    ensures x0 == x1 == x2 == x3 == x4 == x6 == x7 == 0 ==> x0 | x1 | x2 | x3 | x4 | x5 | x6 | x7 == x5
    ensures x0 == x1 == x2 == x3 == x4 == x5 == x7 == 0 ==> x0 | x1 | x2 | x3 | x4 | x5 | x6 | x7 == x6
    ensures x0 == x1 == x2 == x3 == x4 == x5 == x6 == 0 ==> x0 | x1 | x2 | x3 | x4 | x5 | x6 | x7 == x7
  {}

  lemma Alone0(b: Boxes, i0: bv6, i1: bv6, i2: bv6, i3: bv6, i4: bv6, i5: bv6, i6: bv6, i7: bv6)
    requires Silent(b.s1) && Silent(b.s2) && Silent(b.s3) && Silent(b.s4)
    requires Silent(b.s5) && Silent(b.s6) && Silent(b.s7)
    ensures Boxed(b, i0, i1, i2, i3, i4, i5, i6, i7) == b.s0(i0)
  {
    OrNothing(b.s0(i0), b.s1(i1), b.s2(i2), b.s3(i3), b.s4(i4), b.s5(i5), b.s6(i6), b.s7(i7));
  }

  lemma Alone1(b: Boxes, i0: bv6, i1: bv6, i2: bv6, i3: bv6, i4: bv6, i5: bv6, i6: bv6, i7: bv6)
    requires Silent(b.s0) && Silent(b.s2) && Silent(b.s3) && Silent(b.s4)
    requires Silent(b.s5) && Silent(b.s6) && Silent(b.s7)
    ensures Boxed(b, i0, i1, i2, i3, i4, i5, i6, i7) == b.s1(i1)
  {
    OrNothing(b.s0(i0), b.s1(i1), b.s2(i2), b.s3(i3), b.s4(i4), b.s5(i5), b.s6(i6), b.s7(i7));
  }

  lemma Alone2(b: Boxes, i0: bv6, i1: bv6, i2: bv6, i3: bv6, i4: bv6, i5: bv6, i6: bv6, i7: bv6)
    requires Silent(b.s0) && Silent(b.s1) && Silent(b.s3) && Silent(b.s4)
    requires Silent(b.s5) && Silent(b.s6) && Silent(b.s7)
    ensures Boxed(b, i0, i1, i2, i3, i4, i5, i6, i7) == b.s2(i2)
  {
    OrNothing(b.s0(i0), b.s1(i1), b.s2(i2), b.s3(i3), b.s4(i4), b.s5(i5), b.s6(i6), b.s7(i7));
  }

  lemma Alone3(b: Boxes, i0: bv6, i1: bv6, i2: bv6, i3: bv6, i4: bv6, i5: bv6, i6: bv6, i7: bv6)
    requires Silent(b.s0) && Silent(b.s1) && Silent(b.s2) && Silent(b.s4)
    requires Silent(b.s5) && Silent(b.s6) && Silent(b.s7)
    ensures Boxed(b, i0, i1, i2, i3, i4, i5, i6, i7) == b.s3(i3)
  {
    OrNothing(b.s0(i0), b.s1(i1), b.s2(i2), b.s3(i3), b.s4(i4), b.s5(i5), b.s6(i6), b.s7(i7));
  }

  lemma Alone4(b: Boxes, i0: bv6, i1: bv6, i2: bv6, i3: bv6, i4: bv6, i5: bv6, i6: bv6, i7: bv6)
    requires Silent(b.s0) && Silent(b.s1) && Silent(b.s2) && Silent(b.s3)
    requires Silent(b.s5) && Silent(b.s6) && Silent(b.s7)
    ensures Boxed(b, i0, i1, i2, i3, i4, i5, i6, i7) == b.s4(i4)
  {
    OrNothing(b.s0(i0), b.s1(i1), b.s2(i2), b.s3(i3), b.s4(i4), b.s5(i5), b.s6(i6), b.s7(i7));
  }

  lemma Alone5(b: Boxes, i0: bv6, i1: bv6, i2: bv6, i3: bv6, i4: bv6, i5: bv6, i6: bv6, i7: bv6)
    requires Silent(b.s0) && Silent(b.s1) && Silent(b.s2) && Silent(b.s3)
    requires Silent(b.s4) && Silent(b.s6) && Silent(b.s7)
    ensures Boxed(b, i0, i1, i2, i3, i4, i5, i6, i7) == b.s5(i5)
  {
    OrNothing(b.s0(i0), b.s1(i1), b.s2(i2), b.s3(i3), b.s4(i4), b.s5(i5), b.s6(i6), b.s7(i7));
  }

  lemma Alone6(b: Boxes, i0: bv6, i1: bv6, i2: bv6, i3: bv6, i4: bv6, i5: bv6, i6: bv6, i7: bv6)
    requires Silent(b.s0) && Silent(b.s1) && Silent(b.s2) && Silent(b.s3)
    requires Silent(b.s4) && Silent(b.s5) && Silent(b.s7)
    ensures Boxed(b, i0, i1, i2, i3, i4, i5, i6, i7) == b.s6(i6)
  {
    OrNothing(b.s0(i0), b.s1(i1), b.s2(i2), b.s3(i3), b.s4(i4), b.s5(i5), b.s6(i6), b.s7(i7));
  }

  lemma Alone7(b: Boxes, i0: bv6, i1: bv6, i2: bv6, i3: bv6, i4: bv6, i5: bv6, i6: bv6, i7: bv6)
    requires Silent(b.s0) && Silent(b.s1) && Silent(b.s2) && Silent(b.s3)
    requires Silent(b.s4) && Silent(b.s5) && Silent(b.s6)
    ensures Boxed(b, i0, i1, i2, i3, i4, i5, i6, i7) == b.s7(i7)
  {
    OrNothing(b.s0(i0), b.s1(i1), b.s2(i2), b.s3(i3), b.s4(i4), b.s5(i5), b.s6(i6), b.s7(i7));
  }

  lemma At0(b: Boxes, right: bv32, k: RoundKey)
    requires Silent(b.s1) && Silent(b.s2) && Silent(b.s3) && Silent(b.s4)
    requires Silent(b.s5) && Silent(b.s6) && Silent(b.s7)
    ensures Mangle(b, right, k) == b.s0(SixBits(right, 0) ^ k[0])
  {
    Sees0(right, k[0]);
    Alone0(b, Index0(right, k[0]), Index1(right, k[1]), Index2(right, k[2]), Index3(right, k[3]),
           Index4(right, k[4]), Index5(right, k[5]), Index6(right, k[6]), Index7(right, k[7]));
  }

  lemma At1(b: Boxes, right: bv32, k: RoundKey)
    requires Silent(b.s0) && Silent(b.s2) && Silent(b.s3) && Silent(b.s4)
    requires Silent(b.s5) && Silent(b.s6) && Silent(b.s7)
    ensures Mangle(b, right, k) == b.s1(SixBits(right, 1) ^ k[1])
  {
    Sees1(right, k[1]);
    Alone1(b, Index0(right, k[0]), Index1(right, k[1]), Index2(right, k[2]), Index3(right, k[3]),
           Index4(right, k[4]), Index5(right, k[5]), Index6(right, k[6]), Index7(right, k[7]));
  }

  lemma At2(b: Boxes, right: bv32, k: RoundKey)
    requires Silent(b.s0) && Silent(b.s1) && Silent(b.s3) && Silent(b.s4)
    requires Silent(b.s5) && Silent(b.s6) && Silent(b.s7)
    ensures Mangle(b, right, k) == b.s2(SixBits(right, 2) ^ k[2])
  {
    Sees2(right, k[2]);
    Alone2(b, Index0(right, k[0]), Index1(right, k[1]), Index2(right, k[2]), Index3(right, k[3]),
           Index4(right, k[4]), Index5(right, k[5]), Index6(right, k[6]), Index7(right, k[7]));
  }

  lemma At3(b: Boxes, right: bv32, k: RoundKey)
    requires Silent(b.s0) && Silent(b.s1) && Silent(b.s2) && Silent(b.s4)
    requires Silent(b.s5) && Silent(b.s6) && Silent(b.s7)
    ensures Mangle(b, right, k) == b.s3(SixBits(right, 3) ^ k[3])
  {
    Sees3(right, k[3]);
    Alone3(b, Index0(right, k[0]), Index1(right, k[1]), Index2(right, k[2]), Index3(right, k[3]),
           Index4(right, k[4]), Index5(right, k[5]), Index6(right, k[6]), Index7(right, k[7]));
  }

  lemma At4(b: Boxes, right: bv32, k: RoundKey)
    requires Silent(b.s0) && Silent(b.s1) && Silent(b.s2) && Silent(b.s3)
    requires Silent(b.s5) && Silent(b.s6) && Silent(b.s7)
    ensures Mangle(b, right, k) == b.s4(SixBits(right, 4) ^ k[4])
  {
    Sees4(right, k[4]);
    Alone4(b, Index0(right, k[0]), Index1(right, k[1]), Index2(right, k[2]), Index3(right, k[3]),
           Index4(right, k[4]), Index5(right, k[5]), Index6(right, k[6]), Index7(right, k[7]));
  }

  lemma At5(b: Boxes, right: bv32, k: RoundKey)
    requires Silent(b.s0) && Silent(b.s1) && Silent(b.s2) && Silent(b.s3)
    requires Silent(b.s4) && Silent(b.s6) && Silent(b.s7)
    ensures Mangle(b, right, k) == b.s5(SixBits(right, 5) ^ k[5])
  {
    Sees5(right, k[5]);
    Alone5(b, Index0(right, k[0]), Index1(right, k[1]), Index2(right, k[2]), Index3(right, k[3]),
           Index4(right, k[4]), Index5(right, k[5]), Index6(right, k[6]), Index7(right, k[7]));
  }

  lemma At6(b: Boxes, right: bv32, k: RoundKey)
    requires Silent(b.s0) && Silent(b.s1) && Silent(b.s2) && Silent(b.s3)
    requires Silent(b.s4) && Silent(b.s5) && Silent(b.s7)
    ensures Mangle(b, right, k) == b.s6(SixBits(right, 6) ^ k[6])
  {
    Sees6(right, k[6]);
    Alone6(b, Index0(right, k[0]), Index1(right, k[1]), Index2(right, k[2]), Index3(right, k[3]),
           Index4(right, k[4]), Index5(right, k[5]), Index6(right, k[6]), Index7(right, k[7]));
  }

  lemma At7(b: Boxes, right: bv32, k: RoundKey)
    requires Silent(b.s0) && Silent(b.s1) && Silent(b.s2) && Silent(b.s3)
    requires Silent(b.s4) && Silent(b.s5) && Silent(b.s6)
    ensures Mangle(b, right, k) == b.s7(SixBits(right, 7) ^ k[7])
  {
    Sees7(right, k[7]);
    Alone7(b, Index0(right, k[0]), Index1(right, k[1]), Index2(right, k[2]), Index3(right, k[3]),
           Index4(right, k[4]), Index5(right, k[5]), Index6(right, k[6]), Index7(right, k[7]));
  }

  /** The outputs of the boxes are joined by or: a bit is clear if it is clear in all of them. */
  lemma UnionClears(x0: bv32, x1: bv32, x2: bv32, x3: bv32, x4: bv32, x5: bv32, x6: bv32, x7: bv32)
    ensures !Union(x0, x1, x2, x3, x4, x5, x6, x7) == !x0 & !x1 & !x2 & !x3 & !x4 & !x5 & !x6 & !x7
  {}

  lemma OthersSilent(b: Boxes, j: nat)
    requires forall i :: 0 <= i < 8 && i != j ==> Silent(BoxAt(b, i))
    ensures (j == 0 || Silent(b.s0)) && (j == 1 || Silent(b.s1)) && (j == 2 || Silent(b.s2)) && (j == 3 || Silent(b.s3))
    ensures (j == 4 || Silent(b.s4)) && (j == 5 || Silent(b.s5)) && (j == 6 || Silent(b.s6)) && (j == 7 || Silent(b.s7))
  {
    assert (j == 0 || Silent(BoxAt(b, 0))) && (j == 1 || Silent(BoxAt(b, 1)));
    assert (j == 2 || Silent(BoxAt(b, 2))) && (j == 3 || Silent(BoxAt(b, 3)));
    assert (j == 4 || Silent(BoxAt(b, 4))) && (j == 5 || Silent(BoxAt(b, 5)));
    assert (j == 6 || Silent(BoxAt(b, 6))) && (j == 7 || Silent(BoxAt(b, 7)));
  }

  ghost predicate OnlyBox(b: Boxes, j: nat) { forall i :: 0 <= i < 8 && i != j ==> Silent(BoxAt(b, i)) }

  /** Where all the others are silent, a round puts out what box j has for the six bits of the half and the chunk
      of the key. */
  ghost predicate Sees(b: Boxes, right: bv32, k: RoundKey, j: nat)
    requires j < 8
  {
    OnlyBox(b, j) ==> Mangle(b, right, k) == BoxAt(b, j)(SixBits(right, j) ^ k[j])
  }

  lemma Box0Sees(b: Boxes, right: bv32, k: RoundKey)
    ensures Sees(b, right, k, 0)
  {
    if OnlyBox(b, 0) {
      OthersSilent(b, 0);
      At0(b, right, k);
    }
  }

  lemma Box1Sees(b: Boxes, right: bv32, k: RoundKey)
    ensures Sees(b, right, k, 1)
  {
    if OnlyBox(b, 1) {
      OthersSilent(b, 1);
      At1(b, right, k);
    }
  }

  lemma Box2Sees(b: Boxes, right: bv32, k: RoundKey)
    ensures Sees(b, right, k, 2)
  {
    if OnlyBox(b, 2) {
      OthersSilent(b, 2);
      At2(b, right, k);
    }
  }

  lemma Box3Sees(b: Boxes, right: bv32, k: RoundKey)
    ensures Sees(b, right, k, 3)
  {
    if OnlyBox(b, 3) {
      OthersSilent(b, 3);
      At3(b, right, k);
    }
  }

  lemma Box4Sees(b: Boxes, right: bv32, k: RoundKey)
    ensures Sees(b, right, k, 4)
  {
    if OnlyBox(b, 4) {
      OthersSilent(b, 4);
      At4(b, right, k);
    }
  }

  lemma Box5Sees(b: Boxes, right: bv32, k: RoundKey)
    ensures Sees(b, right, k, 5)
  {
    if OnlyBox(b, 5) {
      OthersSilent(b, 5);
      At5(b, right, k);
    }
  }

  lemma Box6Sees(b: Boxes, right: bv32, k: RoundKey)
    ensures Sees(b, right, k, 6)
  {
    if OnlyBox(b, 6) {
      OthersSilent(b, 6);
      At6(b, right, k);
    }
  }

  lemma Box7Sees(b: Boxes, right: bv32, k: RoundKey)
    ensures Sees(b, right, k, 7)
  {
    if OnlyBox(b, 7) {
      OthersSilent(b, 7);
      At7(b, right, k);
    }
  }

  /** Each S-box sees the six bits of the half that start one below its own four, against its own chunk of the key. */
  lemma BoxSees(b: Boxes, right: bv32, k: RoundKey, j: nat)
    requires j < 8
    ensures Sees(b, right, k, j)
  {
    match j
    case 0 => Box0Sees(b, right, k);
    case 1 => Box1Sees(b, right, k);
    case 2 => Box2Sees(b, right, k);
    case 3 => Box3Sees(b, right, k);
    case 4 => Box4Sees(b, right, k);
    case 5 => Box5Sees(b, right, k);
    case 6 => Box6Sees(b, right, k);
    case 7 => Box7Sees(b, right, k);
  }

  type RoundFunction = (bv32, RoundKey) -> bv32

  function RoundFunctionOf(b: Boxes): RoundFunction { (right: bv32, k: RoundKey) => Mangle(b, right, k) }

  function Step(f: RoundFunction, h: Halves, k: RoundKey): Halves {
    Halves(h.right, h.left ^ f(h.right, k))
  }

  function Rounds(f: RoundFunction, ks: seq<RoundKey>, h: Halves, n: nat): Halves
    requires n <= |ks|
  {
    if n == 0 then h else Step(f, Rounds(f, ks, h, n - 1), ks[n - 1])
  }

  function Swap(h: Halves): Halves { Halves(h.right, h.left) }

  function Reverse<T>(s: seq<T>): (r: seq<T>)
    ensures |r| == |s| && forall i :: 0 <= i < |s| ==> r[i] == s[|s| - 1 - i]
  {
    seq(|s|, i requires 0 <= i < |s| => s[|s| - 1 - i])
  }

  lemma XorTwice(x: bv32, y: bv32)
    ensures (x ^ y) ^ y == x
  {}

  /** A round takes the right half over, and adds what it makes of it to the left. */
  lemma StepAdds(f: RoundFunction, h: Halves, k: RoundKey)
    ensures Step(f, h, k).left == h.right && Step(f, h, k).right ^ h.left == f(h.right, k)
  {}

  /** The keys are used first to last. */
  lemma {:induction false} RoundsFirst(f: RoundFunction, k: RoundKey, ks: seq<RoundKey>, h: Halves, n: nat)
    requires n <= |ks|
    ensures Rounds(f, [k] + ks, h, n + 1) == Rounds(f, ks, Step(f, h, k), n)
  {
    if n > 0 { RoundsFirst(f, k, ks, h, n - 1); }
  }

  /** n rounds with the keys read backwards take back the last n rounds. */
  lemma {:induction false} RoundsUnwind(f: RoundFunction, ks: seq<RoundKey>, h: Halves, n: nat)
    requires n <= |ks|
    ensures Rounds(f, Reverse(ks), Swap(Rounds(f, ks, h, |ks|)), n) == Swap(Rounds(f, ks, h, |ks| - n))
  {
    if n > 0 {
      RoundsUnwind(f, ks, h, n - 1);
      var was := Rounds(f, ks, h, |ks| - n);
      XorTwice(was.left, f(was.right, ks[|ks| - n]));
    }
  }

  function Input(t: Text): Halves { Halves(IpLow(t), IpHigh(t)) }
  function Output(h: Halves): Text { Fp(h.right, h.left) }

  function Block(b: Boxes, ks: seq<RoundKey>, t: Text): Text {
    Output(Rounds(RoundFunctionOf(b), ks, Input(t), |ks|))
  }

  /** A block of one round, between the two permutations: the high half goes through unchanged, the low half has the
      round's output added. */
  lemma OneRoundBlock(b: Boxes, k: RoundKey, t: Text)
    ensures var u := Block(b, [k], t);
      IpHigh(u) == IpHigh(t) && IpLow(u) ^ IpLow(t) == Mangle(b, IpHigh(t), k)
  {
    var f, h := RoundFunctionOf(b), Input(t);
    assert Rounds(f, [k], h, 0) == h;
    var g := Step(f, h, k);
    assert Rounds(f, [k], h, 1) == g;
    StepAdds(f, h, k);
    LowUndoesFp(g.right, g.left);
    HighUndoesFp(g.right, g.left);
  }

  lemma BlockInverse(b: Boxes, ks: seq<RoundKey>, t: Text)
    ensures Block(b, Reverse(ks), Block(b, ks, t)) == t
  {
    var h := Rounds(RoundFunctionOf(b), ks, Input(t), |ks|);
    LowUndoesFp(h.right, h.left); HighUndoesFp(h.right, h.left);
    RoundsUnwind(RoundFunctionOf(b), ks, Input(t), |ks|);
    FpUndoesIp(t);
  }

  // ----- complementation -----

  function NotText(t: Text): Text { Text(!t.b0, !t.b1, !t.b2, !t.b3, !t.b4, !t.b5, !t.b6, !t.b7) }
  ghost predicate OppositeKey(k: seq<bv6>, j: seq<bv6>) { |j| == |k| && forall i :: 0 <= i < |k| ==> j[i] == !k[i] }
  ghost predicate OppositeKeys(ks: seq<RoundKey>, js: seq<RoundKey>) {
    |js| == |ks| && forall i :: 0 <= i < |ks| ==> OppositeKey(ks[i], js[i])
  }
  ghost predicate Opposite(h: Halves, g: Halves) { g.left == !h.left && g.right == !h.right }

  // An index is a chunk of the half xor-ed with a chunk of the key, so both complements cancel.

  lemma SameIndex0(r: bv32, q: bv32, k: bv6, j: bv6) requires q == !r && j == !k ensures Index0(q, j) == Index0(r, k) {}
  lemma SameIndex1(r: bv32, q: bv32, k: bv6, j: bv6) requires q == !r && j == !k ensures Index1(q, j) == Index1(r, k) {}
  lemma SameIndex2(r: bv32, q: bv32, k: bv6, j: bv6) requires q == !r && j == !k ensures Index2(q, j) == Index2(r, k) {}
  lemma SameIndex3(r: bv32, q: bv32, k: bv6, j: bv6) requires q == !r && j == !k ensures Index3(q, j) == Index3(r, k) {}
  lemma SameIndex4(r: bv32, q: bv32, k: bv6, j: bv6) requires q == !r && j == !k ensures Index4(q, j) == Index4(r, k) {}
  lemma SameIndex5(r: bv32, q: bv32, k: bv6, j: bv6) requires q == !r && j == !k ensures Index5(q, j) == Index5(r, k) {}
  lemma SameIndex6(r: bv32, q: bv32, k: bv6, j: bv6) requires q == !r && j == !k ensures Index6(q, j) == Index6(r, k) {}
  lemma SameIndex7(r: bv32, q: bv32, k: bv6, j: bv6) requires q == !r && j == !k ensures Index7(q, j) == Index7(r, k) {}

  lemma MangleComplement(b: Boxes, r: bv32, q: bv32, k: RoundKey, j: RoundKey)
    requires q == !r && OppositeKey(k, j)
    ensures Mangle(b, q, j) == Mangle(b, r, k)
  {
    SameIndex0(r, q, k[0], j[0]); SameIndex1(r, q, k[1], j[1]);
    SameIndex2(r, q, k[2], j[2]); SameIndex3(r, q, k[3], j[3]);
    SameIndex4(r, q, k[4], j[4]); SameIndex5(r, q, k[5], j[5]);
    SameIndex6(r, q, k[6], j[6]); SameIndex7(r, q, k[7], j[7]);
  }

  lemma StepComplement(f: RoundFunction, h: Halves, g: Halves, k: RoundKey, j: RoundKey)
    requires f(g.right, j) == f(h.right, k) && Opposite(h, g)
    ensures Opposite(Step(f, h, k), Step(f, g, j))
  {}

  ghost predicate Blind(f: RoundFunction, r: bv32, q: bv32, k: RoundKey, j: RoundKey) {
    q == !r && OppositeKey(k, j) ==> f(q, j) == f(r, k)
  }

  lemma {:induction false} RoundsComplement(f: RoundFunction, ks: seq<RoundKey>, js: seq<RoundKey>, h: Halves,
      g: Halves, n: nat)
    requires n <= |ks| && OppositeKeys(ks, js) && Opposite(h, g)
    requires forall r: bv32, q: bv32, k: RoundKey, j: RoundKey :: Blind(f, r, q, k, j)
    ensures Opposite(Rounds(f, ks, h, n), Rounds(f, js, g, n))
  {
    if n > 0 {
      RoundsComplement(f, ks, js, h, g, n - 1);
      var h', g' := Rounds(f, ks, h, n - 1), Rounds(f, js, g, n - 1);
      assert Blind(f, h'.right, g'.right, ks[n - 1], js[n - 1]);
      StepComplement(f, h', g', ks[n - 1], js[n - 1]);
    }
  }

  lemma LowComplement(t: Text)
    ensures IpLow(NotText(t)) == !IpLow(t)
  {}

  lemma HighComplement(t: Text)
    ensures IpHigh(NotText(t)) == !IpHigh(t)
  {}

  lemma FpComplement(l: bv32, r: bv32, l': bv32, r': bv32)
    requires l' == !l && r' == !r
    ensures Fp(l', r') == NotText(Fp(l, r))
  {
    var u := NotText(Fp(l, r));
    LowUndoesFp(l, r); HighUndoesFp(l, r);
    LowComplement(Fp(l, r)); HighComplement(Fp(l, r));
    FpUndoesIp(u);
  }

  lemma RoundFunctionBlind(b: Boxes)
    ensures forall r: bv32, q: bv32, k: RoundKey, j: RoundKey :: Blind(RoundFunctionOf(b), r, q, k, j)
  {
    forall r: bv32, q: bv32, k: RoundKey, j: RoundKey ensures Blind(RoundFunctionOf(b), r, q, k, j) {
      if q == !r && OppositeKey(k, j) { MangleComplement(b, r, q, k, j); }
    }
  }

  lemma OutputComplement(f: RoundFunction, ks: seq<RoundKey>, js: seq<RoundKey>, h: Halves, g: Halves)
    requires OppositeKeys(ks, js) && Opposite(h, g)
    requires forall r: bv32, q: bv32, k: RoundKey, j: RoundKey :: Blind(f, r, q, k, j)
    ensures Output(Rounds(f, js, g, |js|)) == NotText(Output(Rounds(f, ks, h, |ks|)))
  {
    RoundsComplement(f, ks, js, h, g, |ks|);
    var h', g' := Rounds(f, ks, h, |ks|), Rounds(f, js, g, |js|);
    FpComplement(h'.right, h'.left, g'.right, g'.left);
  }

  lemma BlockComplement(b: Boxes, ks: seq<RoundKey>, js: seq<RoundKey>, t: Text)
    requires OppositeKeys(ks, js)
    ensures Block(b, js, NotText(t)) == NotText(Block(b, ks, t))
  {
    RoundFunctionBlind(b);
    LowComplement(t); HighComplement(t);
    OutputComplement(RoundFunctionOf(b), ks, js, Input(t), Input(NotText(t)));
  }
}
