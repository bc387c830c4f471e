/** The bit-scatter key schedule of kext/crypt.c. The table keyexpand is arbitrary; what it must
    satisfy is stated as predicates. */
module KeySchedule {
  import opened Feistel

  const DESKEYLEN := 7

  // ----- key schedule -----

  datatype Entry = Entry(index: nat, mask: bv6)

  /** The table keyexpand: one row of fifteen (index, mask) entries for each of the 56 key bits. */
  type KeyTable = kx: seq<seq<Entry>> | WellFormed(kx) witness seq(56, _ => seq(15, _ => Entry(0, 0)))

  predicate WellFormed(kx: seq<seq<Entry>>) {
    |kx| == 56 && forall r :: 0 <= r < 56 ==> |kx[r]| == 15 && forall j :: 0 <= j < 15 ==> kx[r][j].index < 128
  }

  type Key = k: seq<bv8> | |k| == DESKEYLEN witness [0, 0, 0, 0, 0, 0, 0]

  ghost predicate OppositeBytes(s: seq<bv8>, t: seq<bv8>) { |t| == |s| && forall i :: 0 <= i < |s| ==> t[i] == !s[i] }

  function MaskAt(b: nat): bv8
    requires b < 8
  {
    if b == 0 then 0x80 else MaskAt(b - 1) >> 1
  }

  predicate KeyBit(key: Key, r: nat)
    requires r < 56
  {
    key[r / 8] & MaskAt(r % 8) != 0
  }

  /** The mask that the first j entries of a row put on position p. */
  function RowMask(row: seq<Entry>, j: nat, p: nat): bv6
    requires j <= |row|
  {
    if j == 0 then 0
    else RowMask(row, j - 1, p) | (if row[j - 1].index == p then row[j - 1].mask else 0)
  }

  function RowsMask(kx: KeyTable, key: Key, n: nat, p: nat): bv6
    requires n <= 56
  {
    if n == 0 then 0
    else RowsMask(kx, key, n - 1, p) | (if KeyBit(key, n - 1) then RowMask(kx[n - 1], 15, p) else 0)
  }

  type Expanded = ek: seq<bv6> | |ek| == 128 witness seq(128, _ => 0)

  function Expand(kx: KeyTable, key: Key): Expanded {
    seq(128, p requires 0 <= p < 128 => RowsMask(kx, key, 56, p))
  }

  /** One row of the table, for a key bit that is set. */
  method OrRow(kx: KeyTable, ghost key: Key, x: nat, ek: array<bv6>)
    requires x < 56 && ek.Length == 128 && forall p :: 0 <= p < 128 ==> ek[p] == RowsMask(kx, key, x, p)
    modifies ek
    ensures forall p :: 0 <= p < 128 ==> ek[p] == RowsMask(kx, key, x, p) | RowMask(kx[x], 15, p)
  {
    for j := 0 to 15
      invariant forall p :: 0 <= p < 128 ==> ek[p] == RowsMask(kx, key, x, p) | RowMask(kx[x], j, p)
    {
      OrAssociative(RowsMask(kx, key, x, kx[x][j].index), RowMask(kx[x], j, kx[x][j].index), kx[x][j].mask);
      ek[kx[x][j].index] := ek[kx[x][j].index] | kx[x][j].mask;
    }
  }

  /** ek holds what the rows of the first x key bits put there. */
  ghost predicate Rows(kx: KeyTable, key: Key, x: nat, ek: seq<bv6>) {
    x <= 56 && |ek| == 128 && forall p :: 0 <= p < 128 ==> ek[p] == RowsMask(kx, key, x, p)
  }

  lemma RowsNext(kx: KeyTable, key: Key, x: nat, was: seq<bv6>, now: seq<bv6>)
    requires x < 56 && Rows(kx, key, x, was) && |now| == 128
    requires if KeyBit(key, x) then forall p :: 0 <= p < 128 ==>
      now[p] == RowsMask(kx, key, x, p) | RowMask(kx[x], 15, p) else now == was
    ensures Rows(kx, key, x + 1, now)
  {
    forall p | 0 <= p < 128 ensures now[p] == RowsMask(kx, key, x + 1, p) { OrNothing(RowsMask(kx, key, x, p)); }
  }

  lemma OrNothing(x: bv6)
    ensures x | 0 == x
  {}

  /** One key bit, and its row if it is set. */
  method BitRow(kx: KeyTable, ghost key: Key, x: nat, isSet: bool, ek: array<bv6>)
    requires x < 56 && ek.Length == 128 && Rows(kx, key, x, ek[..]) && isSet == KeyBit(key, x)
    modifies ek
    ensures Rows(kx, key, x + 1, ek[..])
  {
    ghost var was := ek[..];
    if isSet { OrRow(kx, key, x, ek); }
    RowsNext(kx, key, x, was, ek[..]);
  }

  /** The eight bits of one key byte, highest first. */
  method ByteRows(kx: KeyTable, key: Key, i: nat, ek: array<bv6>)
    requires i < DESKEYLEN && ek.Length == 128 && Rows(kx, key, 8 * i, ek[..])
    modifies ek
    ensures Rows(kx, key, 8 * (i + 1), ek[..])
  {
    var k := key[i];
    var mask: bv8 := 0x80;
    for b := 0 to 8
      invariant b < 8 ==> mask == MaskAt(b)
      invariant Rows(kx, key, 8 * i + b, ek[..])
    {
      var x := 8 * i + b;
      assert x / 8 == i && x % 8 == b;
      BitRow(kx, key, x, k & mask != 0, ek);
      mask := mask >> 1;
    }
  }

  method KeySetup(kx: KeyTable, key: Key, ek: array<bv6>)
    requires ek.Length == 128
    modifies ek
    ensures ek[..] == Expand(kx, key)
  {
    for p := 0 to 128
      invariant forall q :: 0 <= q < p ==> ek[q] == 0
    {
      ek[p] := 0;
    }
    for i := 0 to DESKEYLEN
      invariant Rows(kx, key, 8 * i, ek[..])
    {
      ByteRows(kx, key, i, ek);
    }
  }

  lemma OrAssociative(x: bv6, y: bv6, z: bv6)
    ensures x | y | z == x | (y | z)
  {}

  /** The six-bit mask that the first n rows together put on position p. */
  function AllMask(kx: KeyTable, n: nat, p: nat): bv6
    requires n <= 56
  {
    if n == 0 then 0 else AllMask(kx, n - 1, p) | RowMask(kx[n - 1], 15, p)
  }

  /** Every one of the 6x128 round-key bits is driven by exactly one key bit. */
  ghost predicate DrivenOnce(kx: KeyTable) {
    && (forall p: nat :: p < 128 ==> AllMask(kx, 56, p) == 0x3f)
    && (forall n: nat, p: nat :: n < 56 && p < 128 ==> NewBits(kx, n, p))
  }

  predicate NewBits(kx: KeyTable, n: nat, p: nat)
    requires n < 56
  {
    AllMask(kx, n, p) & RowMask(kx[n], 15, p) == 0
  }

  ghost predicate Splits(a: bv6, c: bv6, t: bv6) { a & c == 0 && a | c == t }

  function OrIf(x: bv6, y: bv6, c: bool): bv6 { if c then x | y else x }

  lemma RowsMaskNext(kx: KeyTable, key: Key, n: nat, p: nat)
    requires n < 56
    ensures RowsMask(kx, key, n + 1, p) == OrIf(RowsMask(kx, key, n, p), RowMask(kx[n], 15, p), KeyBit(key, n))
  {}

  lemma AllMaskNext(kx: KeyTable, n: nat, p: nat)
    requires n < 56
    ensures AllMask(kx, n + 1, p) == AllMask(kx, n, p) | RowMask(kx[n], 15, p)
  {}

  lemma SplitNext(a: bv6, c: bv6, t: bv6, m: bv6, b: bool, a': bv6, c': bv6, t': bv6)
    requires Splits(a, c, t) && t & m == 0 && a' == OrIf(a, m, b) && c' == OrIf(c, m, !b) && t' == t | m
    ensures Splits(a', c', t')
  {}

  lemma RowSplits(kx: KeyTable, key: Key, yek: Key, n: nat, p: nat)
    requires n < 56 && NewBits(kx, n, p) && (KeyBit(yek, n) <==> !KeyBit(key, n))
    requires Splits(RowsMask(kx, key, n, p), RowsMask(kx, yek, n, p), AllMask(kx, n, p))
    ensures Splits(RowsMask(kx, key, n + 1, p), RowsMask(kx, yek, n + 1, p), AllMask(kx, n + 1, p))
  {
    RowsMaskNext(kx, key, n, p);
    RowsMaskNext(kx, yek, n, p);
    AllMaskNext(kx, n, p);
    SplitNext(RowsMask(kx, key, n, p), RowsMask(kx, yek, n, p), AllMask(kx, n, p), RowMask(kx[n], 15, p),
      KeyBit(key, n), RowsMask(kx, key, n + 1, p), RowsMask(kx, yek, n + 1, p), AllMask(kx, n + 1, p));
  }

  lemma {:induction false} RowsComplement(kx: KeyTable, key: Key, yek: Key, n: nat, p: nat)
    requires DrivenOnce(kx) && OppositeBytes(key, yek) && n <= 56 && p < 128
    ensures Splits(RowsMask(kx, key, n, p), RowsMask(kx, yek, n, p), AllMask(kx, n, p))
  {
    if n > 0 {
      RowsComplement(kx, key, yek, n - 1, p);
      KeyBitComplement(key, yek, n - 1);
      assert NewBits(kx, n - 1, p);
      RowSplits(kx, key, yek, n - 1, p);
    }
  }

  lemma Masks()
    ensures MaskAt(0) == 0x80 && MaskAt(1) == 0x40 && MaskAt(2) == 0x20 && MaskAt(3) == 0x10
    ensures MaskAt(4) == 8 && MaskAt(5) == 4 && MaskAt(6) == 2 && MaskAt(7) == 1
  {
    assert MaskAt(1) == 0x40 && MaskAt(2) == 0x20;
    assert MaskAt(3) == 0x10 && MaskAt(4) == 8;
    assert MaskAt(5) == 4 && MaskAt(6) == 2;
  }

  lemma MaskValue(b: nat)
    requires b < 8
    ensures MaskAt(b) in [0x80, 0x40, 0x20, 0x10, 8, 4, 2, 1]
  {
    Masks();
  }

  lemma BitComplement(k: bv8, m: bv8)
    requires m in [0x80, 0x40, 0x20, 0x10, 8, 4, 2, 1]
    ensures !k & m != 0 <==> k & m == 0
  {}

  lemma KeyBitComplement(key: Key, yek: Key, r: nat)
    requires OppositeBytes(key, yek) && r < 56
    ensures KeyBit(yek, r) <==> !KeyBit(key, r)
  {
    MaskValue(r % 8);
    BitComplement(key[r / 8], MaskAt(r % 8));
  }

  lemma ExpandComplement(kx: KeyTable, key: Key, yek: Key)
    requires DrivenOnce(kx) && OppositeBytes(key, yek)
    ensures OppositeKey(Expand(kx, key), Expand(kx, yek))
  {
    forall p | 0 <= p < 128 ensures Expand(kx, yek)[p] == !Expand(kx, key)[p] {
      RowsComplement(kx, key, yek, 56, p);
      Complementary(RowsMask(kx, key, 56, p), RowsMask(kx, yek, 56, p));
    }
  }

  lemma Complementary(a: bv6, c: bv6)
    requires a & c == 0 && a | c == 0x3f
    ensures c == !a
  {}

  // ----- which key bits drive which bits of the expanded key -----

  /** Key bit r: the 56 bits are counted byte by byte, from the highest of each. */
  predicate KeyBitSet(key: Key, r: nat)
    requires r < 56
  {
    (key[r / 8] >> (7 - r % 8)) & 1 == 1
  }

  lemma HighestFirst(key: Key, r: nat)
    requires r < 56
    ensures KeyBit(key, r) <==> KeyBitSet(key, r)
  {
    OneBit(key[r / 8], r % 8);
  }

  lemma Bits(k: bv8)
    ensures (k & 0x80 != 0 <==> (k >> 7) & 1 == 1) && (k & 0x40 != 0 <==> (k >> 6) & 1 == 1)
    ensures (k & 0x20 != 0 <==> (k >> 5) & 1 == 1) && (k & 0x10 != 0 <==> (k >> 4) & 1 == 1)
    ensures (k & 8 != 0 <==> (k >> 3) & 1 == 1) && (k & 4 != 0 <==> (k >> 2) & 1 == 1)
    ensures (k & 2 != 0 <==> (k >> 1) & 1 == 1) && (k & 1 != 0 <==> (k >> 0) & 1 == 1)
  {}

  lemma OneBit(k: bv8, b: nat)
    requires b < 8
    ensures k & MaskAt(b) != 0 <==> (k >> (7 - b)) & 1 == 1
  {
    Masks();
    if b < 4 { OneOfFour(k, b, MaskAt(b)); } else { OneOfRest(k, b, MaskAt(b)); }
  }

  lemma OneOfFour(k: bv8, b: nat, m: bv8)
    requires b < 4 && m == if b == 0 then 0x80 else if b == 1 then 0x40 else if b == 2 then 0x20 else 0x10
    ensures k & m != 0 <==> (k >> (7 - b)) & 1 == 1
  {
    Bits(k);
  }

  lemma OneOfRest(k: bv8, b: nat, m: bv8)
    requires 4 <= b < 8 && m == if b == 4 then 8 else if b == 5 then 4 else if b == 6 then 2 else 1
    ensures k & m != 0 <==> (k >> (7 - b)) & 1 == 1
  {
    Bits(k);
  }

  /** Entry j of a row puts a bit of m on position p. */
  predicate Drives(row: seq<Entry>, j: nat, p: nat, m: bv6) {
    j < |row| && row[j].index == p && row[j].mask & m != 0
  }

  lemma OrTouches(x: bv6, y: bv6, m: bv6)
    ensures (x | y) & m != 0 <==> x & m != 0 || y & m != 0
  {}

  lemma {:induction false} RowTouches(row: seq<Entry>, n: nat, p: nat, m: bv6)
    requires n <= |row|
    ensures RowMask(row, n, p) & m != 0 <==> exists j: nat :: j < n && Drives(row, j, p, m)
  {
    if n > 0 {
      RowTouches(row, n - 1, p, m);
      var y := if row[n - 1].index == p then row[n - 1].mask else 0;
      OrTouches(RowMask(row, n - 1, p), y, m);
      assert Drives(row, n - 1, p, m) <==> y & m != 0;
    }
  }

  predicate RowDrives(kx: KeyTable, key: Key, r: nat, p: nat, m: bv6)
    requires r < 56
  {
    KeyBitSet(key, r) && RowMask(kx[r], 15, p) & m != 0
  }

  lemma RowsTouchNext(kx: KeyTable, key: Key, n: nat, p: nat, m: bv6)
    requires n < 56
    ensures RowsMask(kx, key, n + 1, p) & m != 0 <==> RowsMask(kx, key, n, p) & m != 0 || RowDrives(kx, key, n, p, m)
  {
    RowsMaskNext(kx, key, n, p);
    HighestFirst(key, n);
    OrTouches(RowsMask(kx, key, n, p), RowMask(kx[n], 15, p), m);
  }

  lemma {:induction false} RowsTouch(kx: KeyTable, key: Key, n: nat, p: nat, m: bv6)
    requires n <= 56
    ensures RowsMask(kx, key, n, p) & m != 0 <==> exists r: nat :: r < n && RowDrives(kx, key, r, p, m)
  {
    if n > 0 {
      RowsTouch(kx, key, n - 1, p, m);
      RowsTouchNext(kx, key, n - 1, p, m);
    }
  }

  /** A bit of the expanded key is set if and only if some key bit is set whose row puts it there. */
  lemma ExpandExactly(kx: KeyTable, key: Key, p: nat, m: bv6)
    requires p < 128
    ensures Expand(kx, key)[p] & m != 0 <==>
      exists r: nat, j: nat :: r < 56 && KeyBitSet(key, r) && Drives(kx[r], j, p, m)
  {
    RowsTouch(kx, key, 56, p, m);
    forall r: nat | r < 56
      ensures RowDrives(kx, key, r, p, m) <==> KeyBitSet(key, r) && exists j: nat :: Drives(kx[r], j, p, m)
    {
      RowTouches(kx[r], 15, p, m);
    }
  }

  function RoundKeyAt(ek: Expanded, i: nat): RoundKey
    requires i < 16
  {
    ek[8 * i..8 * i + 8]
  }

  /** The round keys in the order the block cipher reads them: backwards when decrypting. */
  function RoundKeys(ek: Expanded, decrypting: bool): (ks: seq<RoundKey>)
    ensures |ks| == 16
  {
    var forwards := seq(16, i requires 0 <= i < 16 => RoundKeyAt(ek, i));
    if decrypting then Reverse(forwards) else forwards
  }

  /** Where round i finds its key. */
  function Place(decrypting: bool, i: nat): nat
    requires i < 16
  {
    if decrypting then 8 * (15 - i) else 8 * i
  }

  /** The round keys ks lie where the rounds look for them. */
  ghost predicate Placed(ek: Expanded, decrypting: bool, ks: seq<RoundKey>) {
    |ks| == 16 && forall i :: 0 <= i < 16 ==> ks[i] == ek[Place(decrypting, i)..Place(decrypting, i) + 8]
  }

  lemma RoundKeysPlaced(ek: Expanded, decrypting: bool)
    ensures Placed(ek, decrypting, RoundKeys(ek, decrypting))
  {
    var forwards := RoundKeys(ek, false);
    forall i | 0 <= i < 16 ensures forwards[i] == RoundKeyAt(ek, i) {}
    if decrypting {
      forall i | 0 <= i < 16 ensures Reverse(forwards)[i] == RoundKeyAt(ek, 15 - i) {}
    }
  }

  lemma RoundKeysReversed(ek: Expanded)
    ensures RoundKeys(ek, true) == Reverse(RoundKeys(ek, false))
  {}

  lemma RoundKeysComplement(ek: Expanded, ke: Expanded)
    requires OppositeKey(ek, ke)
    ensures OppositeKeys(RoundKeys(ek, false), RoundKeys(ke, false))
  {}
}
