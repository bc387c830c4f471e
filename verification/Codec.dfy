/** Integers, strings and lists as kext/fcall.h and kext/fcall.c lay them out: little-endian numbers,
    counted byte strings, counted lists (section 5 of the Plan 9 Programmer's Manual, intro). */
module Codec {
  import opened Options
  import opened Sequences

  type byte = x: int | 0 <= x < 256
  type u8 = byte
  type u16 = x: int | 0 <= x < 0x1_0000
  type u32 = x: int | 0 <= x < 0x1_0000_0000
  type u64 = x: int | 0 <= x < 0x1_0000_0000_0000_0000
  type bytes = seq<byte>

  // ----- numbers -----

  function Pow256(n: nat): (r: nat)
    ensures r > 0
  {
    if n == 0 then 1 else 256 * Pow256(n - 1)
  }

  function LE(v: nat, n: nat): (r: bytes)
    ensures |r| == n
    decreases n, v
  {
    if n == 0 then [] else [v % 256] + LE(v / 256, n - 1)
  }

  function FromLE(s: bytes): nat {
    if s == [] then 0 else s[0] + 256 * FromLE(s[1..])
  }

  lemma {:induction false} FromLEBound(s: bytes)
    ensures FromLE(s) < Pow256(|s|)
  {
    if s != [] { FromLEBound(s[1..]); }
  }

  /** Writing keeps the low n bytes of a number, and exactly those. */
  lemma {:induction false} LERead(v: nat, n: nat)
    ensures FromLE(LE(v, n)) == v % Pow256(n)
  {
    if n > 0 {
      LERead(v / 256, n - 1);
      assert LE(v, n)[1..] == LE(v / 256, n - 1);
      ModStep(v, Pow256(n - 1));
    }
  }

  lemma ModStep(v: nat, m: nat)
    requires m > 0
    ensures v % (256 * m) == v % 256 + 256 * (v / 256 % m)
  {
    var q := v / 256;
    var r := v % 256 + 256 * (q % m);
    assert q == m * (q / m) + q % m;
    assert v == 256 * m * (q / m) + r;
    assert 0 <= r < 256 * m;
    DivModUnique(v, 256 * m, q / m, r);
  }

  lemma MulAway(m: nat, k: int)
    ensures k >= 1 ==> m * k >= m
    ensures k <= -1 ==> m * k + m <= 0
  {}

  lemma DivModUnique(v: nat, m: nat, q: nat, r: nat)
    requires m > 0 && v == m * q + r && r < m
    ensures v % m == r && v / m == q
  {
    var q', r' := v / m, v % m;
    assert m * (q - q') == r' - r by {
      assert v == m * q' + r';
      assert m * (q - q') == m * q - m * q';
    }
    MulAway(m, q - q');
  }

  lemma {:induction false} LEWrite(s: bytes)
    ensures LE(FromLE(s), |s|) == s
  {
    if s != [] {
      LEWrite(s[1..]);
      LowByte(s[0], FromLE(s[1..]));
      assert s == [s[0]] + s[1..];
    }
  }

  lemma LowByte(a: byte, m: nat)
    ensures (a + 256 * m) % 256 == a && (a + 256 * m) / 256 == m
  {}

  lemma Powers()
    ensures Pow256(1) == 0x100 && Pow256(2) == 0x1_0000 && Pow256(4) == 0x1_0000_0000
    ensures Pow256(8) == 0x1_0000_0000_0000_0000
  {
    assert Pow256(3) == 0x100_0000 && Pow256(4) == 0x1_0000_0000;
    assert Pow256(5) == 0x100_0000_0000 && Pow256(6) == 0x1_0000_0000_0000;
    assert Pow256(7) == 0x100_0000_0000_0000;
  }

  // The GBIT and PBIT macros. The source's shifts and bitwise ors are quotients and sums here: the
  // bytes they combine do not overlap.

  function Gbit16(a: byte, b: byte): u16 { a + b * 0x100 }

  lemma Gbit16Is(a: byte, b: byte)
    ensures Gbit16(a, b) == FromLE([a, b])
  {
    FromLEStep([a, b]);
    FromLEStep([b]);
  }

  lemma FromLEStep(s: bytes)
    requires s != []
    ensures FromLE(s) == s[0] + 256 * FromLE(s[1..])
    ensures |s| == 1 ==> FromLE(s) == s[0]
    ensures |s| == 2 ==> s[1..] == [s[1]]
    ensures |s| == 3 ==> s[1..] == [s[1], s[2]]
    ensures |s| == 4 ==> s[1..] == [s[1], s[2], s[3]]
  {}

  function Gbit32(a: byte, b: byte, c: byte, d: byte): u32 { a + b * 0x100 + c * 0x1_0000 + d * 0x100_0000 }

  lemma Gbit32Is(a: byte, b: byte, c: byte, d: byte)
    ensures Gbit32(a, b, c, d) == FromLE([a, b, c, d])
  {
    FromLEStep([a, b, c, d]);
    FromLEStep([b, c, d]);
    FromLEStep([c, d]);
    FromLEStep([d]);
  }

  lemma {:induction false} JoinLE(s: bytes, t: bytes)
    ensures FromLE(s + t) == FromLE(s) + Pow256(|s|) * FromLE(t)
  {
    if s == [] {
      assert s + t == t;
    } else {
      JoinLE(s[1..], t);
      assert (s + t)[1..] == s[1..] + t;
      MulThrough(s[0], FromLE(s[1..]), Pow256(|s| - 1), FromLE(t));
    }
  }

  lemma MulThrough(a: int, x: int, p: int, y: int)
    ensures a + 256 * (x + p * y) == a + 256 * x + 256 * p * y
  {}

  /** The low and the high half. */
  function Joined(lo: u32, hi: u32): u64 { lo + hi * 0x1_0000_0000 }

  function Gbit64(a: byte, b: byte, c: byte, d: byte, e: byte, f: byte, g: byte, h: byte): u64 {
    Joined(Gbit32(a, b, c, d), Gbit32(e, f, g, h))
  }

  lemma Gbit64Is(a: byte, b: byte, c: byte, d: byte, e: byte, f: byte, g: byte, h: byte)
    ensures Gbit64(a, b, c, d, e, f, g, h) == FromLE([a, b, c, d, e, f, g, h])
  {
    Gbit32Is(a, b, c, d);
    Gbit32Is(e, f, g, h);
    JoinLE([a, b, c, d], [e, f, g, h]);
    Powers();
    assert [a, b, c, d, e, f, g, h] == [a, b, c, d] + [e, f, g, h];
  }

  // ----- fields -----

  datatype Qid = Qid(typ: u8, vers: u32, path: u64)

  const QIDSZ := 13
  const MAXWELEM := 16

  datatype Field =
    | Num(width: nat, v: nat)
    | Text(s: bytes)
    | Blob(width: nat, data: bytes)
    | One(qid: Qid)
    | Names(names: seq<bytes>)
    | Qids(qids: seq<Qid>)

  function EncQid(q: Qid): (r: bytes)
    ensures |r| == QIDSZ
  {
    LE(q.typ, 1) + LE(q.vers, 4) + LE(q.path, 8)
  }

  function EncString(s: bytes): (r: bytes)
    ensures |r| == 2 + |s|
  {
    LE(|s|, 2) + s
  }

  function EncNames(names: seq<bytes>): bytes {
    if names == [] then [] else EncString(names[0]) + EncNames(names[1..])
  }

  function EncQids(qids: seq<Qid>): (r: bytes)
    ensures |r| == |qids| * QIDSZ
  {
    if qids == [] then [] else EncQid(qids[0]) + EncQids(qids[1..])
  }

  function Enc(f: Field): bytes {
    match f
    case Num(w, v) => LE(v, w)
    case Text(s) => EncString(s)
    case Blob(w, s) => LE(|s|, w) + s
    case One(q) => EncQid(q)
    case Names(names) => LE(|names|, 2) + EncNames(names)
    case Qids(qids) => LE(|qids|, 2) + EncQids(qids)
  }

  function Encs(fs: seq<Field>): bytes {
    if fs == [] then [] else Enc(fs[0]) + Encs(fs[1..])
  }

  /** The field loses nothing when it is encoded. */
  predicate Fits(f: Field) {
    match f
    case Num(w, v) => v < Pow256(w)
    case Text(s) => |s| < 0x1_0000
    case Blob(w, s) => |s| < Pow256(w)
    case One(_) => true
    case Names(names) => |names| <= MAXWELEM && forall i :: 0 <= i < |names| ==> |names[i]| < 0x1_0000
    case Qids(qids) => |qids| <= MAXWELEM
  }

  predicate AllFit(fs: seq<Field>) { forall i :: 0 <= i < |fs| ==> Fits(fs[i]) }

  predicate SameKind(f: Field, g: Field) {
    match f
    case Num(w, _) => g.Num? && g.width == w
    case Text(_) => g.Text?
    case Blob(w, _) => g.Blob? && g.width == w
    case One(_) => g.One?
    case Names(_) => g.Names?
    case Qids(_) => g.Qids?
  }

  predicate SameKinds(fs: seq<Field>, gs: seq<Field>) {
    |fs| == |gs| && forall i :: 0 <= i < |fs| ==> SameKind(fs[i], gs[i])
  }

  // ----- what is written can be read back in one way only, whatever follows -----

  lemma HeadTail(a: bytes, x: bytes, b: bytes, y: bytes)
    requires a + x == b + y && |a| == |b|
    ensures a == b && x == y
  {
    assert a == (a + x)[..|a|] && b == (b + y)[..|a|];
    assert x == (a + x)[|a|..] && y == (b + y)[|a|..];
  }

  lemma NumberUnique(w: nat, u: nat, v: nat, x: bytes, y: bytes)
    requires u < Pow256(w) && v < Pow256(w) && LE(u, w) + x == LE(v, w) + y
    ensures u == v && x == y
  {
    HeadTail(LE(u, w), x, LE(v, w), y);
    LERead(u, w);
    LERead(v, w);
    SmallMod(u, Pow256(w));
    SmallMod(v, Pow256(w));
  }

  lemma SmallMod(v: nat, m: nat)
    requires v < m
    ensures v % m == v
  {}

  lemma CountedUnique(w: nat, s: bytes, t: bytes, x: bytes, y: bytes)
    requires |s| < Pow256(w) && |t| < Pow256(w) && (LE(|s|, w) + s) + x == (LE(|t|, w) + t) + y
    ensures s == t && x == y
  {
    Assoc(LE(|s|, w), s, x);
    Assoc(LE(|t|, w), t, y);
    NumberUnique(w, |s|, |t|, s + x, t + y);
    HeadTail(s, x, t, y);
  }

  lemma {:induction false} NamesUnique(ns: seq<bytes>, ms: seq<bytes>, x: bytes, y: bytes)
    requires |ns| == |ms| && EncNames(ns) + x == EncNames(ms) + y
    requires forall i :: 0 <= i < |ns| ==> |ns[i]| < 0x1_0000
    requires forall i :: 0 <= i < |ms| ==> |ms[i]| < 0x1_0000
    ensures ns == ms && x == y
  {
    if ns != [] {
      Assoc(EncString(ns[0]), EncNames(ns[1..]), x);
      Assoc(EncString(ms[0]), EncNames(ms[1..]), y);
      Powers();
      CountedUnique(2, ns[0], ms[0], EncNames(ns[1..]) + x, EncNames(ms[1..]) + y);
      NamesUnique(ns[1..], ms[1..], x, y);
    } else {
      assert EncNames(ns) + x == x && EncNames(ms) + y == y;
    }
  }

  lemma QidUnique(q: Qid, r: Qid, x: bytes, y: bytes)
    requires EncQid(q) + x == EncQid(r) + y
    ensures q == r && x == y
  {
    Powers();
    HeadTail(EncQid(q), x, EncQid(r), y);
    Assoc(LE(q.typ, 1), LE(q.vers, 4), LE(q.path, 8));
    Assoc(LE(r.typ, 1), LE(r.vers, 4), LE(r.path, 8));
    NumberUnique(1, q.typ, r.typ, LE(q.vers, 4) + LE(q.path, 8), LE(r.vers, 4) + LE(r.path, 8));
    NumberUnique(4, q.vers, r.vers, LE(q.path, 8), LE(r.path, 8));
    assert LE(q.path, 8) + [] == LE(r.path, 8) + [];
    NumberUnique(8, q.path, r.path, [], []);
  }

  lemma {:induction false} QidsUnique(qs: seq<Qid>, rs: seq<Qid>, x: bytes, y: bytes)
    requires |qs| == |rs| && EncQids(qs) + x == EncQids(rs) + y
    ensures qs == rs && x == y
  {
    if qs != [] {
      Assoc(EncQid(qs[0]), EncQids(qs[1..]), x);
      Assoc(EncQid(rs[0]), EncQids(rs[1..]), y);
      QidUnique(qs[0], rs[0], EncQids(qs[1..]) + x, EncQids(rs[1..]) + y);
      QidsUnique(qs[1..], rs[1..], x, y);
    } else {
      assert EncQids(qs) + x == x && EncQids(rs) + y == y;
    }
  }

  lemma FieldUnique(f: Field, g: Field, x: bytes, y: bytes)
    requires SameKind(f, g) && Fits(f) && Fits(g) && Enc(f) + x == Enc(g) + y
    ensures f == g && x == y
  {
    Powers();
    match f
    case Num(w, v) => NumberUnique(w, v, g.v, x, y);
    case Text(s) => CountedUnique(2, s, g.s, x, y);
    case Blob(w, s) => CountedUnique(w, s, g.data, x, y);
    case One(q) => QidUnique(q, g.qid, x, y);
    case Names(names) =>
      Assoc(LE(|names|, 2), EncNames(names), x);
      Assoc(LE(|g.names|, 2), EncNames(g.names), y);
      NumberUnique(2, |names|, |g.names|, EncNames(names) + x, EncNames(g.names) + y);
      NamesUnique(names, g.names, x, y);
    case Qids(qids) =>
      Assoc(LE(|qids|, 2), EncQids(qids), x);
      Assoc(LE(|g.qids|, 2), EncQids(g.qids), y);
      NumberUnique(2, |qids|, |g.qids|, EncQids(qids) + x, EncQids(g.qids) + y);
      QidsUnique(qids, g.qids, x, y);
  }

  /** Unique readability of a whole field list. */
  lemma {:induction false} FieldsUnique(fs: seq<Field>, gs: seq<Field>, x: bytes, y: bytes)
    requires SameKinds(fs, gs) && AllFit(fs) && AllFit(gs) && Encs(fs) + x == Encs(gs) + y
    ensures fs == gs && x == y
  {
    if fs != [] {
      Assoc(Enc(fs[0]), Encs(fs[1..]), x);
      Assoc(Enc(gs[0]), Encs(gs[1..]), y);
      FieldUnique(fs[0], gs[0], Encs(fs[1..]) + x, Encs(gs[1..]) + y);
      FieldsUnique(fs[1..], gs[1..], x, y);
    } else {
      assert Encs(fs) + x == x && Encs(gs) + y == y;
    }
  }

  lemma {:induction false} EncsAppend(fs: seq<Field>, gs: seq<Field>)
    ensures Encs(fs + gs) == Encs(fs) + Encs(gs)
  {
    if fs == [] {
      assert fs + gs == gs;
    } else {
      assert (fs + gs)[1..] == fs[1..] + gs;
      EncsAppend(fs[1..], gs);
      Assoc(Enc(fs[0]), Encs(fs[1..]), Encs(gs));
    }
  }

  lemma EncsOne(f: Field)
    ensures Encs([f]) == Enc(f)
  {
    assert [f][1..] == [];
  }

  lemma {:induction false} NamesAppend(ns: seq<bytes>, n: bytes)
    ensures EncNames(ns + [n]) == EncNames(ns) + EncString(n)
  {
    if ns == [] {
      assert (ns + [n])[1..] == [];
    } else {
      assert (ns + [n])[1..] == ns[1..] + [n];
      NamesAppend(ns[1..], n);
    }
  }

  lemma {:induction false} QidsAppend(qs: seq<Qid>, q: Qid)
    ensures EncQids(qs + [q]) == EncQids(qs) + EncQid(q)
  {
    if qs == [] {
      assert (qs + [q])[1..] == [];
    } else {
      assert (qs + [q])[1..] == qs[1..] + [q];
      QidsAppend(qs[1..], q);
    }
  }
}
