/** The loops of kext/crypt.c around the block cipher, in place on a buffer:
    ip_low, ip_high, fp and block_cipher, each proved to compute what module Feistel defines. */
module BlockCipher {
  import opened Feistel

  // ----- ip_low and ip_high -----

  function OrTo(s: seq<bv32>, n: nat): bv32
    requires n <= |s|
  {
    if n == 0 then 0 else OrTo(s, n - 1) | s[n - 1]
  }

  /** What byte i of a block contributes to the low and to the high half. */
  function LowPart(b: bv8, i: nat): bv32
    requires i < 8
  {
    var x := b as bv32;
    (IpTab((x >> 4) & 7) >> i) | (IpTab(x & 7) << (16 - i))
  }

  function HighPart(b: bv8, i: nat): bv32
    requires i < 8
  {
    var x := b as bv32;
    (IpTab((x >> 5) & 7) >> i) | (IpTab((x >> 1) & 7) << (16 - i))
  }

  type Window = s: seq<bv8> | |s| == 8 witness [0, 0, 0, 0, 0, 0, 0, 0]

  function LowParts(t: Window): (s: seq<bv32>) { seq(8, i requires 0 <= i < 8 => LowPart(t[i], i)) }
  function HighParts(t: Window): (s: seq<bv32>) { seq(8, i requires 0 <= i < 8 => HighPart(t[i], i)) }

  function TextOf(s: Window): Text { Text(s[0], s[1], s[2], s[3], s[4], s[5], s[6], s[7]) }
  function BytesOf(t: Text): Window { [t.b0, t.b1, t.b2, t.b3, t.b4, t.b5, t.b6, t.b7] }

  lemma Or2(s: seq<bv32>, n: nat)
    requires n + 2 <= |s|
    ensures OrTo(s, n + 2) == OrTo(s, n) | s[n] | s[n + 1]
  {}

  lemma Or8(s: seq<bv32>)
    requires |s| == 8
    ensures OrTo(s, 8) == 0 | s[0] | s[1] | s[2] | s[3] | s[4] | s[5] | s[6] | s[7]
  {
    Or2(s, 0);
    Or2(s, 2);
    Or2(s, 4);
    Or2(s, 6);
  }

  lemma Low0(b: bv8) ensures LowPart(b, 0) == Scatter(b as bv32) {}
  lemma High0(b: bv8) ensures HighPart(b, 0) == Scatter((b as bv32) >> 1) {}
  lemma Low1(b: bv8) ensures LowPart(b, 1) == (Scatter(b as bv32) >> 1) {}
  lemma High1(b: bv8) ensures HighPart(b, 1) == (Scatter((b as bv32) >> 1) >> 1) {}
  lemma Low2(b: bv8) ensures LowPart(b, 2) == (Scatter(b as bv32) >> 2) {}
  lemma High2(b: bv8) ensures HighPart(b, 2) == (Scatter((b as bv32) >> 1) >> 2) {}
  lemma Low3(b: bv8) ensures LowPart(b, 3) == (Scatter(b as bv32) >> 3) {}
  lemma High3(b: bv8) ensures HighPart(b, 3) == (Scatter((b as bv32) >> 1) >> 3) {}
  lemma Low4(b: bv8) ensures LowPart(b, 4) == (Scatter(b as bv32) >> 4) {}
  lemma High4(b: bv8) ensures HighPart(b, 4) == (Scatter((b as bv32) >> 1) >> 4) {}
  lemma Low5(b: bv8) ensures LowPart(b, 5) == (Scatter(b as bv32) >> 5) {}
  lemma High5(b: bv8) ensures HighPart(b, 5) == (Scatter((b as bv32) >> 1) >> 5) {}
  lemma Low6(b: bv8) ensures LowPart(b, 6) == (Scatter(b as bv32) >> 6) {}
  lemma High6(b: bv8) ensures HighPart(b, 6) == (Scatter((b as bv32) >> 1) >> 6) {}
  lemma Low7(b: bv8) ensures LowPart(b, 7) == (Scatter(b as bv32) >> 7) {}
  lemma High7(b: bv8) ensures HighPart(b, 7) == (Scatter((b as bv32) >> 1) >> 7) {}

  lemma LowOr(t: Window, s: seq<bv32>)
    requires |s| == 8
    requires s[0] == Scatter((t[0] as bv32)) && s[1] == (Scatter((t[1] as bv32)) >> 1)
    requires s[2] == (Scatter((t[2] as bv32)) >> 2) && s[3] == (Scatter((t[3] as bv32)) >> 3)
    requires s[4] == (Scatter((t[4] as bv32)) >> 4) && s[5] == (Scatter((t[5] as bv32)) >> 5)
    requires s[6] == (Scatter((t[6] as bv32)) >> 6) && s[7] == (Scatter((t[7] as bv32)) >> 7)
    ensures OrTo(s, 8) == LowBits(t[0], t[1], t[2], t[3], t[4], t[5], t[6], t[7])
  {
    Or8(s);
  }

  lemma LowClosed(t: Window)
    ensures OrTo(LowParts(t), 8) == IpLow(TextOf(t))
  {
    Low0(t[0]); Low1(t[1]); Low2(t[2]); Low3(t[3]); Low4(t[4]); Low5(t[5]); Low6(t[6]); Low7(t[7]);
    LowOr(t, LowParts(t));
  }

  lemma HighOr(t: Window, s: seq<bv32>)
    requires |s| == 8
    requires s[0] == Scatter((t[0] as bv32) >> 1) && s[1] == (Scatter((t[1] as bv32) >> 1) >> 1)
    requires s[2] == (Scatter((t[2] as bv32) >> 1) >> 2) && s[3] == (Scatter((t[3] as bv32) >> 1) >> 3)
    requires s[4] == (Scatter((t[4] as bv32) >> 1) >> 4) && s[5] == (Scatter((t[5] as bv32) >> 1) >> 5)
    requires s[6] == (Scatter((t[6] as bv32) >> 1) >> 6) && s[7] == (Scatter((t[7] as bv32) >> 1) >> 7)
    ensures OrTo(s, 8) == HighBits(t[0], t[1], t[2], t[3], t[4], t[5], t[6], t[7])
  {
    Or8(s);
  }

  lemma HighClosed(t: Window)
    ensures OrTo(HighParts(t), 8) == IpHigh(TextOf(t))
  {
    High0(t[0]); High1(t[1]); High2(t[2]); High3(t[3]); High4(t[4]); High5(t[5]); High6(t[6]); High7(t[7]);
    HighOr(t, HighParts(t));
  }

  method IpLowLoop(text: array<bv8>, off: nat) returns (l: bv32)
    requires off + 8 <= text.Length
    ensures l == IpLow(TextOf(text[off..off + 8]))
  {
    l := 0;
    for i := 0 to 8
      invariant l == OrTo(LowParts(text[off..off + 8]), i)
    {
      l := l | LowPart(text[off + i], i);
    }
    LowClosed(text[off..off + 8]);
  }

  method IpHighLoop(text: array<bv8>, off: nat) returns (l: bv32)
    requires off + 8 <= text.Length
    ensures l == IpHigh(TextOf(text[off..off + 8]))
  {
    l := 0;
    for i := 0 to 8
      invariant l == OrTo(HighParts(text[off..off + 8]), i)
    {
      l := l | HighPart(text[off + i], i);
    }
    HighClosed(text[off..off + 8]);
  }

  // ----- fp -----

  /** The word operations of fp; its loops are followed without looking inside a word. */
  datatype WordOps<!W> = WordOps(zero: W, or: (W, W) -> W, part: (W, nat) -> W, nibble: W -> W, octet: W -> W,
    low: W -> bv8)
  datatype Outputs<W> = Outputs(v0: W, v1: W)

  /** The low nibble of t, spread by the table and shifted down by sh. */
  function FpPart(t: bv32, sh: nat): bv32 { if sh < 8 then FpTab(t & 0xf) >> sh else 0 }
  function Or(x: bv32, y: bv32): bv32 { x | y }
  function NextNibble(t: bv32): bv32 { t >> 4 }
  function NextOctet(t: bv32): bv32 { t >> 8 }

  const DES := WordOps<bv32>.WordOps(0, Or, FpPart, NextNibble, NextOctet, LowOctet)

  /** The inner loop of fp: n more bytes of t, low nibbles into v1 and high nibbles into v0. */
  function SpreadFrom<W>(ops: WordOps<W>, v: Outputs<W>, t: W, sh: nat, n: nat): Outputs<W>
    decreases n
  {
    if n == 0 then v
    else
      var t' := ops.nibble(t);
      SpreadFrom(ops, Outputs(ops.or(v.v0, ops.part(t', sh)), ops.or(v.v1, ops.part(t, sh))), ops.nibble(t'), sh + 2,
        n - 1)
  }

  /** The n low bytes of v, least significant first. */
  function Emit<W>(ops: WordOps<W>, v: W, n: nat): (s: seq<bv8>)
    ensures |s| == n
    decreases n
  {
    if n == 0 then [] else [ops.low(v)] + Emit(ops, ops.octet(v), n - 1)
  }

  function Join1<W>(ops: WordOps<W>, w: W, a: W, sh: nat): W { ops.or(w, ops.part(a, sh)) }
  function Join2<W>(ops: WordOps<W>, w: W, a: W, sh: nat): W { Join1(ops, Join1(ops, w, a, sh), Octet(ops, a), sh + 2) }
  function Octet<W>(ops: WordOps<W>, a: W): W { ops.nibble(ops.nibble(a)) }

  /** Every other nibble of one half, joined to w. */
  function Join4<W>(ops: WordOps<W>, w: W, a: W, sh: nat): W {
    Join2(ops, Join2(ops, w, a, sh), Octet(ops, Octet(ops, a)), sh + 4)
  }

  function Join<W>(ops: WordOps<W>, l: W, r: W): W { Join4(ops, Join4(ops, ops.zero, r, 0), l, 1) }

  lemma SpreadUnrolled<W>(ops: WordOps<W>, v: Outputs<W>, t: W, sh: nat)
    ensures SpreadFrom(ops, v, t, sh, 4) == Outputs(Join4(ops, v.v0, ops.nibble(t), sh), Join4(ops, v.v1, t, sh))
  {
    var t2 := ops.nibble(ops.nibble(t));
    var t4 := ops.nibble(ops.nibble(t2));
    var t6 := ops.nibble(ops.nibble(t4));
    var w1 := Outputs(ops.or(v.v0, ops.part(ops.nibble(t), sh)), ops.or(v.v1, ops.part(t, sh)));
    var w2 := Outputs(ops.or(w1.v0, ops.part(ops.nibble(t2), sh + 2)), ops.or(w1.v1, ops.part(t2, sh + 2)));
    var w3 := Outputs(ops.or(w2.v0, ops.part(ops.nibble(t4), sh + 4)), ops.or(w2.v1, ops.part(t4, sh + 4)));
    assert SpreadFrom(ops, w2, t4, sh + 4, 2) == SpreadFrom(ops, w3, t6, sh + 6, 1);
    assert SpreadFrom(ops, w1, t2, sh + 2, 3) == SpreadFrom(ops, w2, t4, sh + 4, 2);
  }

  lemma OctetIs(r: bv32) ensures Octet(DES, r) == r >> 8 {}
  lemma Octet2Is(r: bv32) ensures Octet(DES, Octet(DES, r)) == r >> 16 { OctetIs(r); OctetIs(r >> 8); }
  lemma Join0Is(w: bv32, t: bv32) ensures Join1(DES, w, t, 0) == w | FpTab(t) {}
  lemma Join1Is(w: bv32, t: bv32) ensures Join1(DES, w, t, 1) == w | (FpTab(t) >> 1) {}
  lemma Join2Is(w: bv32, t: bv32) ensures Join1(DES, w, t, 2) == w | (FpTab(t) >> 2) {}
  lemma Join3Is(w: bv32, t: bv32) ensures Join1(DES, w, t, 3) == w | (FpTab(t) >> 3) {}
  lemma Join4Is(w: bv32, t: bv32) ensures Join1(DES, w, t, 4) == w | (FpTab(t) >> 4) {}
  lemma Join5Is(w: bv32, t: bv32) ensures Join1(DES, w, t, 5) == w | (FpTab(t) >> 5) {}
  lemma Join6Is(w: bv32, t: bv32) ensures Join1(DES, w, t, 6) == w | (FpTab(t) >> 6) {}
  lemma Join7Is(w: bv32, t: bv32) ensures Join1(DES, w, t, 7) == w | (FpTab(t) >> 7) {}

  lemma Pair0(w: bv32, t: bv32)
    ensures Join2(DES, w, t, 0) == w | FpTab(t) | (FpTab(t >> 8) >> 2)
  {
    OctetIs(t); Join0Is(w, t); Join2Is(w | FpTab(t), t >> 8);
  }

  lemma Pair1(w: bv32, t: bv32)
    ensures Join2(DES, w, t, 1) == w | (FpTab(t) >> 1) | (FpTab(t >> 8) >> 3)
  {
    OctetIs(t); Join1Is(w, t); Join3Is(w | (FpTab(t) >> 1), t >> 8);
  }

  lemma Pair4(w: bv32, t: bv32)
    ensures Join2(DES, w, t, 4) == w | (FpTab(t) >> 4) | (FpTab(t >> 8) >> 6)
  {
    OctetIs(t); Join4Is(w, t); Join6Is(w | (FpTab(t) >> 4), t >> 8);
  }

  lemma Pair5(w: bv32, t: bv32)
    ensures Join2(DES, w, t, 5) == w | (FpTab(t) >> 5) | (FpTab(t >> 8) >> 7)
  {
    OctetIs(t); Join5Is(w, t); Join7Is(w | (FpTab(t) >> 5), t >> 8);
  }

  lemma JoinRight(w: bv32, r: bv32)
    ensures Join4(DES, w, r, 0) == w | FpTab(r) | (FpTab(r >> 8) >> 2) | (FpTab(r >> 16) >> 4) | (FpTab(r >> 24) >> 6)
  {
    Octet2Is(r); Pair0(w, r); Pair4(Join2(DES, w, r, 0), r >> 16);
  }

  lemma JoinLeft(w: bv32, l: bv32)
    ensures Join4(DES, w, l, 1) == w | (FpTab(l) >> 1) | (FpTab(l >> 8) >> 3) | (FpTab(l >> 16) >> 5) |
      (FpTab(l >> 24) >> 7)
  {
    Octet2Is(l); Pair1(w, l); Pair5(Join2(DES, w, l, 1), l >> 16);
  }

  lemma JoinBoth(l: bv32, r: bv32)
    ensures Join(DES, l, r) == Word8(l, r)
  {
    JoinRight(0, r);
    JoinLeft(Join4(DES, 0, r, 0), l);
  }

  lemma EmitClosed(w: bv32)
    ensures Emit(DES, w, 4) == [LowOctet(w), LowOctet(w >> 8), LowOctet(w >> 16), LowOctet(w >> 24)]
  {}

  /** The two nested loops of fp that fill v[0] and v[1]. */
  method SpreadHalves<W>(ops: WordOps<W>, left: W, right: W) returns (v0: W, v1: W)
    ensures v0 == Join(ops, ops.nibble(left), ops.nibble(right)) && v1 == Join(ops, left, right)
  {
    v0, v1 := ops.zero, ops.zero;
    ghost var start := Outputs(v0, v1);
    for i := 0 to 2
      invariant i == 0 ==> Outputs(v0, v1) == start
      invariant i == 1 ==> Outputs(v0, v1) == SpreadFrom(ops, start, right, 0, 4)
      invariant i == 2 ==> Outputs(v0, v1) == SpreadFrom(ops, SpreadFrom(ops, start, right, 0, 4), left, 1, 4)
    {
      ghost var was := Outputs(v0, v1);
      var t, sh := if i == 0 then right else left, i;
      for j := 0 to 4
        invariant SpreadFrom(ops, Outputs(v0, v1), t, sh, 4 - j) ==
          SpreadFrom(ops, was, if i == 0 then right else left, i, 4)
      {
        v1 := ops.or(v1, ops.part(t, sh));
        t := ops.nibble(t);
        v0 := ops.or(v0, ops.part(t, sh));
        t := ops.nibble(t);
        sh := sh + 2;
      }
    }
    SpreadUnrolled(ops, start, right, 0);
    SpreadUnrolled(ops, SpreadFrom(ops, start, right, 0, 4), left, 1);
  }

  /** The loop of fp that stores one word. */
  method WriteWord<W>(ops: WordOps<W>, w: W, text: array<bv8>, off: nat)
    requires off + 4 <= text.Length
    modifies text
    ensures text[off..off + 4] == Emit(ops, w, 4)
    ensures forall k :: 0 <= k < text.Length && !(off <= k < off + 4) ==> text[k] == old(text[k])
  {
    var v := w;
    for j := 0 to 4
      invariant text[off..off + j] + Emit(ops, v, 4 - j) == Emit(ops, w, 4)
      invariant forall k :: 0 <= k < text.Length && !(off <= k < off + j) ==> text[k] == old(text[k])
    {
      text[off + j] := ops.low(v);
      v := ops.octet(v);
    }
  }

  method FpWords(left: bv32, right: bv32) returns (v0: bv32, v1: bv32)
    ensures v0 == Word8(left >> 4, right >> 4) && v1 == Word8(left, right)
  {
    v0, v1 := SpreadHalves(DES, left, right);
    JoinBoth(left, right);
    JoinBoth(left >> 4, right >> 4);
  }

  /** Splice a transformed block back into the bytes it was taken from. */
  function Splice(s: seq<bv8>, off: nat, t: Text): (r: seq<bv8>)
    requires off + 8 <= |s|
    ensures |r| == |s|
  {
    s[..off] + BytesOf(t) + s[off + 8..]
  }

  method WriteOctets(v0: bv32, v1: bv32, text: array<bv8>, off: nat)
    requires off + 8 <= text.Length
    modifies text
    ensures text[..] == Splice(old(text[..]), off, Octets(v0, v1))
  {
    EmitClosed(v0);
    EmitClosed(v1);
    WriteWord(DES, v0, text, off);
    ghost var first := text[off..off + 4];
    WriteWord(DES, v1, text, off + 4);
    assert text[off..off + 4] == first;
    EightWritten(old(text[..]), text[..], off, Octets(v0, v1), first, text[off + 4..off + 8]);
  }

  lemma EightWritten(s: seq<bv8>, t: seq<bv8>, off: nat, x: Text, a: seq<bv8>, b: seq<bv8>)
    requires off + 8 <= |s| == |t| && BytesOf(x) == a + b && |a| == 4 && t[off..off + 4] == a &&
      t[off + 4..off + 8] == b
    requires forall k :: 0 <= k < |s| && !(off <= k < off + 8) ==> t[k] == s[k]
    ensures t == Splice(s, off, x)
  {
    assert t[off..off + 8] == t[off..off + 4] + t[off + 4..off + 8];
    assert t[..off] == s[..off] && t[off + 8..] == s[off + 8..];
    assert t == t[..off] + t[off..off + 8] + t[off + 8..];
  }

  method FinalPermutation(left: bv32, right: bv32, text: array<bv8>, off: nat)
    requires off + 8 <= text.Length
    modifies text
    ensures text[..] == Splice(old(text[..]), off, Fp(left, right))
  {
    var v0, v1 := FpWords(left, right);
    WriteOctets(v0, v1, text, off);
  }
}
