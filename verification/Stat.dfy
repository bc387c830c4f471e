/** Directory entries of kext/fcall.c: sizeD2M, convD2M, statcheck and convM2D (section 5 of the Plan 9
    Programmer's Manual, stat). */
module Stat {
  import opened Codec
  import opened MessageEncoder
  import opened Options
  import opened Sequences

  const STATFIXLEN := 49
  const STATUEXTRALEN := 14
  /** The bytes in front of the first string, the count of the whole entry included. */
  const FIXED := 41

  datatype Dir = Dir(typ: u16, dev: u32, qid: Qid, mode: u32, atime: u32, mtime: u32, length: u64,
                     name: bytes, uid: bytes, gid: bytes, muid: bytes, ext: bytes, uidnum: u32, gidnum: u32,
                     muidnum: u32)

  function FixedFields(d: Dir): seq<Field> {
    [Num(2, d.typ), Num(4, d.dev), One(d.qid), Num(4, d.mode), Num(4, d.atime), Num(4, d.mtime), Num(8, d.length)]
  }

  function Strings(d: Dir, dotu: bool): (r: seq<bytes>)
    ensures |r| == NStrings(dotu)
  {
    [d.name, d.uid, d.gid, d.muid] + if dotu then [d.ext] else []
  }

  function NStrings(dotu: bool): nat { if dotu then 5 else 4 }
  function TailLen(dotu: bool): nat { if dotu then 12 else 0 }

  function TailFields(d: Dir, dotu: bool): seq<Field> {
    if dotu then [Num(4, d.uidnum), Num(4, d.gidnum), Num(4, d.muidnum)] else []
  }

  /** Everything behind the count, in wire order. */
  function DirFields(d: Dir, dotu: bool): seq<Field> { FixedFields(d) + Texts(Strings(d, dotu)) + TailFields(d, dotu) }

  function StatSize(d: Dir, dotu: bool): nat { 2 + |Encs(DirFields(d, dotu))| }

  /** size[2], not counting itself, and the fields. */
  function StatWire(d: Dir, dotu: bool): (r: bytes)
    ensures |r| == StatSize(d, dotu)
  {
    LE(StatSize(d, dotu) - 2, 2) + Encs(DirFields(d, dotu))
  }

  predicate SameDir(d: Dir, e: Dir, dotu: bool) { DirFields(d, dotu) == DirFields(e, dotu) }

  predicate ShortStrings(names: seq<bytes>) { forall i :: 0 <= i < |names| ==> |names[i]| < 0x1_0000 }

  // ----- the layout in bytes -----

  function FixedBytes(d: Dir): (r: bytes)
    ensures |r| == FIXED - 2
  {
    LE(d.typ, 2) + LE(d.dev, 4) + EncQid(d.qid) + LE(d.mode, 4) + LE(d.atime, 4) + LE(d.mtime, 4) + LE(d.length, 8)
  }

  function TailBytes(d: Dir, dotu: bool): (r: bytes)
    ensures |r| == TailLen(dotu)
  {
    if dotu then LE(d.uidnum, 4) + LE(d.gidnum, 4) + LE(d.muidnum, 4) else []
  }

  lemma FixedIs(d: Dir)
    ensures Encs(FixedFields(d)) == FixedBytes(d)
  {
    var a, b, c, e, f, g, h := Num(2, d.typ), Num(4, d.dev), One(d.qid), Num(4, d.mode), Num(4, d.atime),
      Num(4, d.mtime), Num(8, d.length);
    EncsSnoc([a, b, c, e, f, g], h);
    EncsSnoc([a, b, c, e, f], g);
    EncsSnoc([a, b, c, e], f);
    EncsSnoc([a, b, c], e);
    EncsSnoc([a, b], c);
    Encs2(a, b);
    assert FixedFields(d) == [a, b, c, e, f, g] + [h] && [a, b, c, e, f, g] == [a, b, c, e, f] + [g];
    assert [a, b, c, e, f] == [a, b, c, e] + [f] && [a, b, c, e] == [a, b, c] + [e] && [a, b, c] == [a, b] + [c];
  }

  lemma EncsSnoc(fs: seq<Field>, f: Field)
    ensures Encs(fs + [f]) == Encs(fs) + Enc(f)
  {
    EncsAppend(fs, [f]);
    EncsOne(f);
  }

  lemma TailIs(d: Dir, dotu: bool)
    ensures Encs(TailFields(d, dotu)) == TailBytes(d, dotu)
  {
    if dotu {
      var a, b, c := Num(4, d.uidnum), Num(4, d.gidnum), Num(4, d.muidnum);
      EncsSnoc([a, b], c);
      Encs2(a, b);
      assert TailFields(d, dotu) == [a, b] + [c];
    }
  }

  lemma DirBytes(d: Dir, dotu: bool)
    ensures Encs(DirFields(d, dotu)) == FixedBytes(d) + EncNames(Strings(d, dotu)) + TailBytes(d, dotu)
  {
    EncsAppend(FixedFields(d) + Texts(Strings(d, dotu)), TailFields(d, dotu));
    EncsAppend(FixedFields(d), Texts(Strings(d, dotu)));
    FixedIs(d);
    EncTexts(Strings(d, dotu));
    TailIs(d, dotu);
  }

  // ----- decoding -----

  /** s starts with an entry for d of n bytes; its count field is not looked at. */
  ghost predicate Decodes(s: bytes, d: Dir, n: nat, dotu: bool) {
    2 <= n <= |s| && AllFit(DirFields(d, dotu)) && s[2..n] == Encs(DirFields(d, dotu))
  }

  /** The k counted strings from p on, and where they end. */
  function ReadStrings(s: bytes, p: nat, k: nat): (r: Option<(seq<bytes>, nat)>)
    ensures r.Some? ==> |r.value.0| == k && p + 2 * k <= r.value.1 && (k > 0 ==> r.value.1 <= |s|)
    decreases k, p
  {
    if k == 0 then Some(([], p))
    else if p + 2 > |s| then None
    else
      var n := FromLE(s[p..p + 2]);
      if p + 2 + n > |s| then None
      else
        var r := ReadStrings(s, p + 2 + n, k - 1);
        if r.None? then None else Some(([s[p + 2..p + 2 + n]] + r.value.0, r.value.1))
  }

  lemma {:induction false} StringsRead(s: bytes, p: nat, k: nat)
    requires p <= |s| && ReadStrings(s, p, k).Some?
    ensures var (ss, q) := ReadStrings(s, p, k).value; q <= |s| && p <= q && s[p..q] == EncNames(ss) && ShortStrings(ss)
    decreases k
  {
    if k > 0 {
      var n := FromLE(s[p..p + 2]);
      var str := s[p + 2..p + 2 + n];
      Powers();
      LEWrite(s[p..p + 2]);
      FromLEBound(s[p..p + 2]);
      StringsRead(s, p + 2 + n, k - 1);
      var (ss, q) := ReadStrings(s, p, k).value;
      assert ss[1..] == ReadStrings(s, p + 2 + n, k - 1).value.0;
      assert s[p..q] == s[p..p + 2] + str + s[p + 2 + n..q];
    }
  }

  lemma {:induction false} StringsThere(s: bytes, p: nat, ss: seq<bytes>)
    requires p <= |s| && ShortStrings(ss) && EncNames(ss) <= s[p..]
    ensures ReadStrings(s, p, |ss|) == Some((ss, p + |EncNames(ss)|))
    decreases |ss|
  {
    if ss != [] {
      var n := |ss[0]|;
      Powers();
      LERead(n, 2);
      SmallMod(n, 0x1_0000);
      var rest := EncNames(ss[1..]);
      assert s[p..p + 2] == EncNames(ss)[..2] == LE(n, 2);
      assert s[p + 2..p + 2 + n] == EncNames(ss)[2..2 + n] == ss[0];
      assert s[p + 2 + n..][..|rest|] == EncNames(ss)[2 + n..] == rest;
      StringsThere(s, p + 2 + n, ss[1..]);
      assert [ss[0]] + ss[1..] == ss;
    }
  }

  // The number at a place in the buffer, and the GBIT macros that read it there.

  function Get8(s: bytes, p: nat): u8
    requires p < |s|
  {
    s[p]
  }

  function Get16(s: bytes, p: nat): u16
    requires p + 2 <= |s|
  {
    FromLEBound(s[p..p + 2]);
    Powers();
    FromLE(s[p..p + 2])
  }

  function Get32(s: bytes, p: nat): u32
    requires p + 4 <= |s|
  {
    FromLEBound(s[p..p + 4]);
    Powers();
    FromLE(s[p..p + 4])
  }

  function Get64(s: bytes, p: nat): u64
    requires p + 8 <= |s|
  {
    FromLEBound(s[p..p + 8]);
    Powers();
    FromLE(s[p..p + 8])
  }

  lemma Gbit16At(s: bytes, p: nat)
    requires p + 2 <= |s|
    ensures Gbit16(s[p], s[p + 1]) == Get16(s, p)
  {
    Gbit16Is(s[p], s[p + 1]);
    assert s[p..p + 2] == [s[p], s[p + 1]];
  }

  lemma Gbit32At(s: bytes, p: nat)
    requires p + 4 <= |s|
    ensures Gbit32(s[p], s[p + 1], s[p + 2], s[p + 3]) == Get32(s, p)
  {
    Gbit32Is(s[p], s[p + 1], s[p + 2], s[p + 3]);
    assert s[p..p + 4] == [s[p], s[p + 1], s[p + 2], s[p + 3]];
  }

  lemma Gbit64At(s: bytes, p: nat)
    requires p + 8 <= |s|
    ensures Gbit64(s[p], s[p + 1], s[p + 2], s[p + 3], s[p + 4], s[p + 5], s[p + 6], s[p + 7]) == Get64(s, p)
  {
    Gbit64Is(s[p], s[p + 1], s[p + 2], s[p + 3], s[p + 4], s[p + 5], s[p + 6], s[p + 7]);
    assert s[p..p + 8] == [s[p], s[p + 1], s[p + 2], s[p + 3], s[p + 4], s[p + 5], s[p + 6], s[p + 7]];
  }

  lemma Get64Halves(s: bytes, p: nat)
    requires p + 8 <= |s|
    ensures Get64(s, p) == Joined(Get32(s, p), Get32(s, p + 4))
  {
    Gbit64At(s, p);
    Gbit32At(s, p);
    Gbit32At(s, p + 4);
  }

  method Read16(s: bytes, p: nat) returns (v: u16)
    requires p + 2 <= |s|
    ensures v == Get16(s, p)
  {
    v := Gbit16(s[p], s[p + 1]);
    Gbit16At(s, p);
  }

  method Read32(s: bytes, p: nat) returns (v: u32)
    requires p + 4 <= |s|
    ensures v == Get32(s, p)
  {
    v := Gbit32(s[p], s[p + 1], s[p + 2], s[p + 3]);
    Gbit32At(s, p);
  }

  method Read64(s: bytes, p: nat) returns (v: u64)
    requires p + 8 <= |s|
    ensures v == Get64(s, p)
  {
    v := Gbit64(s[p], s[p + 1], s[p + 2], s[p + 3], s[p + 4], s[p + 5], s[p + 6], s[p + 7]);
    Gbit64At(s, p);
  }

  lemma Back8(s: bytes, p: nat)
    requires p < |s|
    ensures LE(Get8(s, p), 1) == s[p..p + 1]
  {
    LEWrite(s[p..p + 1]);
    FromLEStep(s[p..p + 1]);
  }

  lemma Back16(s: bytes, p: nat)
    requires p + 2 <= |s|
    ensures LE(Get16(s, p), 2) == s[p..p + 2]
  {
    LEWrite(s[p..p + 2]);
  }

  lemma Back32(s: bytes, p: nat)
    requires p + 4 <= |s|
    ensures LE(Get32(s, p), 4) == s[p..p + 4]
  {
    LEWrite(s[p..p + 4]);
  }

  lemma Back64(s: bytes, p: nat)
    requires p + 8 <= |s|
    ensures LE(Get64(s, p), 8) == s[p..p + 8]
  {
    LEWrite(s[p..p + 8]);
  }

  /** The numbers in front of the strings. */
  function ReadFixed(s: bytes, d: Dir): Dir
    requires |s| >= FIXED
  {
    d.(typ := Get16(s, 2), dev := Get32(s, 4), qid := Qid(Get8(s, 8), Get32(s, 9), Get64(s, 13)), mode := Get32(s, 21),
       atime := Get32(s, 25), mtime := Get32(s, 29), length := Get64(s, 33))
  }

  lemma QidBack(s: bytes, p: nat)
    requires p + QIDSZ <= |s|
    ensures EncQid(Qid(Get8(s, p), Get32(s, p + 1), Get64(s, p + 5))) == s[p..p + QIDSZ]
  {
    Back8(s, p);
    Back32(s, p + 1);
    Back64(s, p + 5);
    SplitSlice(s, p, p + 1, p + 5);
    SplitSlice(s, p, p + 5, p + 13);
  }

  lemma FixedSlices(s: bytes)
    requires |s| >= FIXED
    ensures s[2..FIXED] == s[2..4] + s[4..8] + s[8..21] + s[21..25] + s[25..29] + s[29..33] + s[33..41]
  {
    SplitSlice(s, 2, 4, 8);
    SplitSlice(s, 2, 8, 21);
    SplitSlice(s, 2, 21, 25);
    SplitSlice(s, 2, 25, 29);
    SplitSlice(s, 2, 29, 33);
    SplitSlice(s, 2, 33, 41);
  }

  lemma FixedRead(s: bytes, d: Dir)
    requires |s| >= FIXED
    ensures FixedBytes(ReadFixed(s, d)) == s[2..FIXED]
  {
    Back16(s, 2);
    Back32(s, 4);
    QidBack(s, 8);
    Back32(s, 21);
    Back32(s, 25);
    Back32(s, 29);
    Back64(s, 33);
    FixedSlices(s);
  }

  function WithStrings(d: Dir, ss: seq<bytes>, dotu: bool): Dir
    requires |ss| == NStrings(dotu)
  {
    d.(name := ss[0], uid := ss[1], gid := ss[2], muid := ss[3], ext := if dotu then ss[4] else [])
  }

  function WithTail(d: Dir, s: bytes, q: nat, dotu: bool): Dir
    requires q + TailLen(dotu) <= |s|
  {
    if dotu then d.(uidnum := Get32(s, q), gidnum := Get32(s, q + 4), muidnum := Get32(s, q + 8)) else d
  }

  /** The entry at the start of s, laid over the struct d, and its length. */
  function ReadDir(s: bytes, d: Dir, dotu: bool): Option<(Dir, nat)>
    requires |s| >= FIXED
  {
    var r := ReadStrings(s, FIXED, NStrings(dotu));
    if r.None? || r.value.1 + TailLen(dotu) > |s| then None
    else
      var (ss, q) := r.value;
      Some((WithTail(WithStrings(ReadFixed(s, d), ss, dotu), s, q, dotu), q + TailLen(dotu)))
  }

  lemma ReadSound(s: bytes, d: Dir, dotu: bool)
    requires |s| >= FIXED && ReadDir(s, d, dotu).Some?
    ensures var (e, n) := ReadDir(s, d, dotu).value; Decodes(s, e, n, dotu)
  {
    var (ss, q) := ReadStrings(s, FIXED, NStrings(dotu)).value;
    var fixed := ReadFixed(s, d);
    var e := WithTail(WithStrings(fixed, ss, dotu), s, q, dotu);
    StringsRead(s, FIXED, NStrings(dotu));
    FixedRead(s, d);
    LaidOver(s, fixed, ss, q, dotu);
    Assembled(s, e, q, dotu);
  }

  lemma Assembled(s: bytes, e: Dir, q: nat, dotu: bool)
    requires FIXED <= q && q + TailLen(dotu) <= |s| && ShortStrings(Strings(e, dotu))
    requires FixedBytes(e) == s[2..FIXED] && EncNames(Strings(e, dotu)) == s[FIXED..q] &&
      TailBytes(e, dotu) == s[q..q + TailLen(dotu)]
    ensures Decodes(s, e, q + TailLen(dotu), dotu)
  {
    DirBytes(e, dotu);
    SplitSlice(s, 2, FIXED, q);
    SplitSlice(s, 2, q, q + TailLen(dotu));
    DirFits(e, dotu);
  }

  lemma LaidOver(s: bytes, d: Dir, ss: seq<bytes>, q: nat, dotu: bool)
    requires q + TailLen(dotu) <= |s| && |ss| == NStrings(dotu)
    ensures var e := WithTail(WithStrings(d, ss, dotu), s, q, dotu);
      Strings(e, dotu) == ss && FixedBytes(e) == FixedBytes(d) && TailBytes(e, dotu) == s[q..q + TailLen(dotu)]
  {
    if dotu {
      Back32(s, q);
      Back32(s, q + 4);
      Back32(s, q + 8);
      SplitSlice(s, q, q + 4, q + 8);
      SplitSlice(s, q, q + 8, q + 12);
    }
  }

  lemma DirFits(d: Dir, dotu: bool)
    ensures AllFit(DirFields(d, dotu)) <==> ShortStrings(Strings(d, dotu))
  {
    Powers();
    var n := NStrings(dotu);
    if AllFit(DirFields(d, dotu)) {
      forall i | 0 <= i < n ensures |Strings(d, dotu)[i]| < 0x1_0000 {
        assert DirFields(d, dotu)[7 + i] == Text(Strings(d, dotu)[i]);
      }
    }
  }

  lemma ReadComplete(s: bytes, d: Dir, n: nat, base: Dir, dotu: bool)
    requires Decodes(s, d, n, dotu)
    ensures |s| >= FIXED && ReadDir(s, base, dotu).Some?
    ensures var (e, m) := ReadDir(s, base, dotu).value; m == n && SameDir(d, e, dotu)
  {
    var ss := Strings(d, dotu);
    var q := FIXED + |EncNames(ss)|;
    DirBytes(d, dotu);
    DirFits(d, dotu);
    assert n == q + TailLen(dotu);
    StringsAt(s, FixedBytes(d), EncNames(ss), TailBytes(d, dotu), n);
    StringsThere(s, FIXED, ss);
    ReadSound(s, base, dotu);
    var (e, m) := ReadDir(s, base, dotu).value;
    DecodesUnique(s, d, n, e, m, dotu);
  }

  /** A buffer starts with one entry at most. */
  lemma DecodesUnique(s: bytes, d: Dir, n: nat, e: Dir, m: nat, dotu: bool)
    requires Decodes(s, d, n, dotu) && Decodes(s, e, m, dotu)
    ensures m == n && SameDir(d, e, dotu)
  {
    SameDirKinds(d, e, dotu);
    SlicesUnique(s, DirFields(d, dotu), n, DirFields(e, dotu), m);
  }

  lemma SlicesUnique(s: bytes, fs: seq<Field>, n: nat, gs: seq<Field>, m: nat)
    requires 2 <= n <= |s| && 2 <= m <= |s| && SameKinds(fs, gs) && AllFit(fs) && AllFit(gs)
    requires s[2..n] == Encs(fs) && s[2..m] == Encs(gs)
    ensures fs == gs && n == m
  {
    SplitSlice(s, 2, n, |s|);
    SplitSlice(s, 2, m, |s|);
    FieldsUnique(fs, gs, s[n..|s|], s[m..|s|]);
    assert n - 2 == |Encs(fs)| && m - 2 == |Encs(gs)|;
  }

  lemma StringsAt(s: bytes, a: bytes, b: bytes, c: bytes, n: nat)
    requires |a| == FIXED - 2 && 2 <= n <= |s| && s[2..n] == a + b + c
    ensures FIXED <= |s| && b <= s[FIXED..]
  {
    assert b == (a + b + c)[FIXED - 2..FIXED - 2 + |b|] == s[2..n][FIXED - 2..FIXED - 2 + |b|];
  }

  lemma SameDirKinds(d: Dir, e: Dir, dotu: bool)
    ensures SameKinds(DirFields(d, dotu), DirFields(e, dotu))
  {}

  // ----- encoding -----

  /** strlen of each string, summed, over the fixed part. */
  method SizeD2M(d: Dir, dotu: bool) returns (n: nat)
    ensures n == StatSize(d, dotu)
  {
    var sv := Strings(d, dotu);
    var ns := 0;
    for i := 0 to |sv|
      invariant |EncNames(sv[..i])| == ns + 2 * i
    {
      assert sv[..i + 1] == sv[..i] + [sv[i]];
      NamesAppend(sv[..i], sv[i]);
      ns := ns + |sv[i]|;
    }
    assert sv[..|sv|] == sv;
    DirBytes(d, dotu);
    n := ns + STATFIXLEN + if dotu then STATUEXTRALEN else 0;
  }

  /** On a buffer that is too short the count is all that is written. */
  method ConvD2M(d: Dir, buf: array<byte>, nbuf: nat, dotu: bool) returns (n: nat)
    requires nbuf <= buf.Length
    modifies buf
    ensures nbuf < 2 ==> n == 0 && buf[..] == old(buf[..])
    ensures 2 <= nbuf < StatSize(d, dotu) ==> n == 2 && buf[..] == LE(StatSize(d, dotu) - 2, 2) + old(buf[2..])
    ensures nbuf >= StatSize(d, dotu) ==>
      n == StatSize(d, dotu) && buf[..] == StatWire(d, dotu) + old(buf[StatSize(d, dotu)..])
  {
    if nbuf < 2 { return 0; }
    var ss := SizeD2M(d, dotu);
    if ss > nbuf {
      Pbit16(buf, 0, ss - 2);
      return 2;
    }
    PutStat(d, buf, ss, dotu);
    n := ss;
  }

  method PutStat(d: Dir, buf: array<byte>, ss: nat, dotu: bool)
    requires ss == StatSize(d, dotu) <= buf.Length
    modifies buf
    ensures buf[..] == StatWire(d, dotu) + old(buf[ss..])
  {
    ghost var fs := DirFields(d, dotu);
    EncsCount(ss - 2, fs);
    var w := new Writer(buf, StatWire(d, dotu), [Num(2, ss - 2)] + fs);
    PutFields(w, d, ss, dotu);
    WrittenAll(w.Now(), ss);
    assert old(buf[..])[ss..] == old(buf[ss..]);
  }

  lemma EncsCount(n: nat, fs: seq<Field>)
    ensures Encs([Num(2, n)] + fs) == LE(n, 2) + Encs(fs)
  {
    assert ([Num(2, n)] + fs)[1..] == fs;
  }

  method PutFields(w: Writer, d: Dir, ss: nat, dotu: bool)
    requires w.Valid() && ss >= 2 && w.todo == [Num(2, ss - 2)] + DirFields(d, dotu)
    modifies w, w.buf
    ensures w.Valid() && w.todo == []
  {
    w.U16(ss - 2);
    PutFixed(w, d, Texts(Strings(d, dotu)) + TailFields(d, dotu));
    w.Strings(Strings(d, dotu), TailFields(d, dotu));
    if dotu {
      w.U32(d.uidnum);
      w.U32(d.gidnum);
      w.U32(d.muidnum);
    }
  }

  method PutFixed(w: Writer, d: Dir, ghost rest: seq<Field>)
    requires w.Valid() && w.todo == FixedFields(d) + rest
    modifies w, w.buf
    ensures w.Valid() && w.todo == rest
  {
    w.U16(d.typ);
    w.U32(d.dev);
    w.OneQid(d.qid);
    w.U32(d.mode);
    w.U32(d.atime);
    w.U32(d.mtime);
    w.U64(d.length);
  }

  // ----- checking and decoding -----

  /** The buffer is one entry, no more and no less. */
  ghost predicate Checks(s: bytes, dotu: bool) { exists d :: Decodes(s, d, |s|, dotu) }

  lemma StringsStep(s: bytes, p: nat, k: nat)
    requires k > 0
    ensures ReadStrings(s, p, k).Some? <==>
      p + 2 <= |s| && p + 2 + FromLE(s[p..p + 2]) <= |s| && ReadStrings(s, p + 2 + FromLE(s[p..p + 2]), k - 1).Some?
    ensures ReadStrings(s, p, k).Some? ==>
      ReadStrings(s, p, k).value.1 == ReadStrings(s, p + 2 + FromLE(s[p..p + 2]), k - 1).value.1
  {}

  /** The strings read so far, i of k, leave the others to be read from p. */
  ghost predicate Resumes(s: bytes, p: nat, k: nat, i: nat)
    requires i <= k
  {
    && (ReadStrings(s, FIXED, k).Some? <==> p <= |s| && ReadStrings(s, p, k - i).Some?)
    && (ReadStrings(s, FIXED, k).Some? ==> ReadStrings(s, FIXED, k).value.1 == ReadStrings(s, p, k - i).value.1)
  }

  lemma ResumesNext(s: bytes, p: nat, k: nat, i: nat)
    requires i < k && Resumes(s, p, k, i)
    ensures p + 2 > |s| ==> ReadStrings(s, FIXED, k).None?
    ensures p + 2 <= |s| ==> Resumes(s, p + 2 + FromLE(s[p..p + 2]), k, i + 1)
  {
    StringsStep(s, p, k - i);
  }

  const ZERODIR := Dir(0, 0, Qid(0, 0, 0), 0, 0, 0, 0, [], [], [], [], [], 0, 0, 0)

  /** The strings and what follows them end with the buffer. */
  predicate EndsExactly(s: bytes, dotu: bool) {
    var r := ReadStrings(s, FIXED, NStrings(dotu));
    r.Some? && r.value.1 + TailLen(dotu) == |s|
  }

  lemma ReadEnds(s: bytes, base: Dir, dotu: bool)
    requires |s| >= FIXED
    ensures EndsExactly(s, dotu) <==> ReadDir(s, base, dotu).Some? && ReadDir(s, base, dotu).value.1 == |s|
  {}

  lemma CheckMeans(s: bytes, dotu: bool)
    ensures Checks(s, dotu) <==> EndsExactly(s, dotu)
  {
    if d :| Decodes(s, d, |s|, dotu) {
      ReadComplete(s, d, |s|, ZERODIR, dotu);
      ReadEnds(s, ZERODIR, dotu);
    } else if EndsExactly(s, dotu) {
      EndsReads(s, dotu);
    }
  }

  lemma EndsReads(s: bytes, dotu: bool)
    requires EndsExactly(s, dotu)
    ensures Checks(s, dotu)
  {
    ReadEnds(s, ZERODIR, dotu);
    ReadSound(s, ZERODIR, dotu);
    assert Decodes(s, ReadDir(s, ZERODIR, dotu).value.0, |s|, dotu);
  }

  /** A string that overshoots the buffer is found out by the next test, or by the last one. */
  method Statcheck(buf: bytes, dotu: bool) returns (ok: bool)
    ensures ok <==> Checks(buf, dotu)
  {
    ghost var k := NStrings(dotu);
    CheckMeans(buf, dotu);
    var p: nat := STATFIXLEN - 4 * 2;
    for i := 0 to NStrings(dotu)
      invariant Resumes(buf, p, k, i)
    {
      ResumesNext(buf, p, k, i);
      if p + 2 > |buf| { return false; }
      var ns := Read16(buf, p);
      p := p + 2 + ns;
    }
    if dotu { p := p + STATUEXTRALEN - 2; }
    ok := p == |buf|;
  }

  /** The strings one behind the other, each with its terminator. */
  function Stored(ss: seq<bytes>): bytes {
    if ss == [] then [] else Stored(ss[..|ss| - 1]) + ss[|ss| - 1] + [0]
  }

  /** strs[so] to strs[at] have become stored, and beyond end nothing has changed. */
  ghost predicate Filled(was: bytes, now: bytes, so: nat, at: nat, end: nat, stored: bytes) {
    && so <= at == so + |stored| && at <= end <= |now| == |was|
    && now[so..at] == stored && now[..so] == was[..so] && now[end..] == was[end..]
  }

  method Copy(strs: array<byte>, at: nat, s: bytes, ghost was: bytes, ghost so: nat, ghost end: nat,
      ghost stored: bytes) returns (at': nat)
    requires Filled(was, strs[..], so, at, end, stored) && at + |s| + 1 <= end
    modifies strs
    ensures at' == at + |s| + 1 && Filled(was, strs[..], so, at', end, stored + s + [0])
  {
    forall i | 0 <= i < |s| { strs[at + i] := s[i]; }
    strs[at + |s|] := 0;
    at' := at + |s| + 1;
    assert strs[..] == old(strs[..at]) + (s + [0]) + old(strs[at'..]);
  }

  /** inv is Filled for one buffer and one slot of it, looked into only where Filled is mentioned. */
  ghost predicate Hides(inv: (bytes, nat, bytes) -> bool, was: bytes, so: nat, end: nat) {
    forall now, at, stored {:trigger Filled(was, now, so, at, end, stored)} :: inv(now, at, stored) <==>
      Filled(was, now, so, at, end, stored)
  }

  /** The next of n more strings behind ss, its count and its copy. */
  method CopyNext(buf: bytes, p: nat, n: nat, ss: seq<bytes>, strs: array<byte>, at: nat, ghost was: bytes,
      ghost so: nat, ghost end: nat,
                  ghost inv: (bytes, nat, bytes) -> bool)
    returns (more: seq<bytes>, p': nat, at': nat)
    requires FIXED <= p <= |buf| && at <= so + p - FIXED && end == so + |buf| - FIXED && n > 0
    requires Hides(inv, was, so, end) && inv(strs[..], at, Stored(ss))
    modifies strs
    ensures if |more| == |ss| then Resume(buf, p, n, ss).None? && more == ss && at' == at
            else |more| == |ss| + 1 && Resume(buf, p, n, ss) == Resume(buf, p', n - 1, more)
    ensures FIXED <= p' <= |buf| && at' <= so + p' - FIXED && inv(strs[..], at', Stored(more))
  {
    ResumeNext(buf, p, n, ss);
    assert Filled(was, strs[..], so, at, end, Stored(ss));
    more, p', at' := ss, p, at;
    if p + 2 > |buf| { return; }
    var ns := Read16(buf, p);
    if p + 2 + ns > |buf| { return; }
    p' := p + 2 + ns;
    var str := buf[p + 2..p'];
    at' := Copy(strs, at, str, was, so, end, Stored(ss));
    StoredMore(ss, str);
    more := ss + [str];
  }

  /** The loop over the strings: they are copied to strs from so on, nothing else there is touched. */
  method CopyStrings(buf: bytes, dotu: bool, strs: array<byte>, so: nat)
      returns (ok: bool, ss: seq<bytes>, p: nat, ghost stored: bytes)
    requires |buf| >= FIXED && so + |buf| - FIXED <= strs.Length
    modifies strs
    ensures ok <==> ReadStrings(buf, FIXED, NStrings(dotu)).Some?
    ensures ok ==> ReadStrings(buf, FIXED, NStrings(dotu)).value == (ss, p)
    ensures Filled(old(strs[..]), strs[..], so, so + |stored|, so + |buf| - FIXED, stored) &&
      (ok ==> stored == Stored(ss))
  {
    ghost var was, end := strs[..], so + |buf| - FIXED;
    ghost var inv := (now: bytes, at: nat, st: bytes) => Filled(was, now, so, at, end, st);
    assert Filled(was, strs[..], so, so, end, []);
    ghost var at;
    ok, ss, p, at := CopyAll(buf, NStrings(dotu), strs, so, was, end, inv);
    stored := Stored(ss);
    assert Filled(was, strs[..], so, at, end, stored);
  }

  method CopyAll(buf: bytes, k: nat, strs: array<byte>, so: nat, ghost was: bytes, ghost end: nat,
      ghost inv: (bytes, nat, bytes) -> bool)
    returns (ok: bool, ss: seq<bytes>, p: nat, at: nat)
    requires |buf| >= FIXED && end == so + |buf| - FIXED && Hides(inv, was, so, end) && inv(strs[..], so, [])
    modifies strs
    ensures ok <==> ReadStrings(buf, FIXED, k).Some?
    ensures ok ==> ReadStrings(buf, FIXED, k).value == (ss, p)
    ensures inv(strs[..], at, Stored(ss))
  {
    ghost var all := ReadStrings(buf, FIXED, k);
    p, at, ss := FIXED, so, [];
    ResumeEnds(buf, p, k, ss);
    for i := 0 to k
      invariant |ss| == i && FIXED <= p <= |buf| && at <= so + p - FIXED
      invariant Resume(buf, p, k - i, ss) == all
      invariant inv(strs[..], at, Stored(ss))
    {
      var more, p', at' := CopyNext(buf, p, k - i, ss, strs, at, was, so, end, inv);
      if |more| == |ss| { return false, ss, p, at; }
      p, at, ss := p', at', more;
    }
    ResumeEnds(buf, p, 0, ss);
    ok := true;
  }

  lemma StoredMore(ss: seq<bytes>, s: bytes)
    ensures Stored(ss + [s]) == Stored(ss) + s + [0]
  {
    assert (ss + [s])[..|ss|] == ss;
  }

  /** What ReadStrings comes to when ss have been read and k more are to be read from p. */
  function Resume(s: bytes, p: nat, k: nat, ss: seq<bytes>): Option<(seq<bytes>, nat)> {
    match ReadStrings(s, p, k)
    case None => None
    case Some(r) => Some((ss + r.0, r.1))
  }

  lemma ResumeNext(s: bytes, p: nat, k: nat, ss: seq<bytes>)
    requires k > 0
    ensures p + 2 > |s| || p + 2 + FromLE(s[p..p + 2]) > |s| ==> Resume(s, p, k, ss).None?
    ensures p + 2 <= |s| && p + 2 + FromLE(s[p..p + 2]) <= |s| ==>
      var n := FromLE(s[p..p + 2]);
      Resume(s, p, k, ss) == Resume(s, p + 2 + n, k - 1, ss + [s[p + 2..p + 2 + n]])
  {
    if p + 2 <= |s| && p + 2 + FromLE(s[p..p + 2]) <= |s| && ReadStrings(s, p, k).Some? {
      var n := FromLE(s[p..p + 2]);
      Assoc(ss, [s[p + 2..p + 2 + n]], ReadStrings(s, p + 2 + n, k - 1).value.0);
    }
  }

  lemma ResumeEnds(s: bytes, p: nat, k: nat, ss: seq<bytes>)
    ensures Resume(s, p, k, []) == ReadStrings(s, p, k) && Resume(s, p, 0, ss) == Some((ss, p))
  {
    var r := ReadStrings(s, p, k);
    if r.Some? { assert [] + r.value.0 == r.value.0; }
    assert ss + [] == ss;
  }

  /** The cursor over the numbers in front of the strings. */
  method TakeFixed(buf: bytes, base: Dir) returns (d: Dir)
    requires |buf| >= FIXED
    ensures d == ReadFixed(buf, base)
  {
    var p := 2;
    var typ := Read16(buf, p);
    p := p + 2;
    var dev := Read32(buf, p);
    p := p + 4;
    var qtyp := buf[p];
    p := p + 1;
    var vers := Read32(buf, p);
    p := p + 4;
    var path := Read64(buf, p);
    p := p + 8;
    var mode := Read32(buf, p);
    p := p + 4;
    var atime := Read32(buf, p);
    p := p + 4;
    var mtime := Read32(buf, p);
    p := p + 4;
    var length := Read64(buf, p);
    d := base.(typ := typ, dev := dev, qid := Qid(qtyp, vers, path), mode := mode, atime := atime, mtime := mtime,
      length := length);
  }

  method TakeTail(d: Dir, buf: bytes, q: nat, dotu: bool) returns (e: Dir)
    requires q + TailLen(dotu) <= |buf|
    ensures e == WithTail(d, buf, q, dotu)
  {
    e := d;
    if dotu {
      var uidnum := Read32(buf, q);
      var gidnum := Read32(buf, q + 4);
      var muidnum := Read32(buf, q + 8);
      e := d.(uidnum := uidnum, gidnum := gidnum, muidnum := muidnum);
    }
  }

  method Complete(buf: bytes, ghost base: Dir, fixed: Dir, ss: seq<bytes>, p: nat, dotu: bool) returns (n: nat, d: Dir)
    requires |buf| >= FIXED && ReadStrings(buf, FIXED, NStrings(dotu)) == Some((ss, p)) && fixed == ReadFixed(buf, base)
    ensures n == if ReadDir(buf, base, dotu).None? then 0 else ReadDir(buf, base, dotu).value.1
    ensures n != 0 ==> ReadDir(buf, base, dotu) == Some((d, n)) && Strings(d, dotu) == ss
  {
    d := WithStrings(fixed, ss, dotu);
    if p + TailLen(dotu) > |buf| { return 0, d; }
    LaidOver(buf, fixed, ss, p, dotu);
    d := TakeTail(d, buf, p, dotu);
    n := p + TailLen(dotu);
  }

  /** With storage at strs[so..], where each string is copied and terminated. */
  method ConvM2D(buf: bytes, base: Dir, strs: array<byte>, so: nat, dotu: bool)
      returns (n: nat, d: Dir, ghost stored: bytes)
    requires |buf| >= FIXED && so + |buf| - FIXED <= strs.Length
    modifies strs
    ensures n == if ReadDir(buf, base, dotu).None? then 0 else ReadDir(buf, base, dotu).value.1
    ensures n != 0 ==> d == ReadDir(buf, base, dotu).value.0
    ensures Filled(old(strs[..]), strs[..], so, so + |stored|, so + |buf| - FIXED, stored)
    ensures n != 0 ==> stored == Stored(Strings(d, dotu))
  {
    d := TakeFixed(buf, base);
    var ok, ss, p;
    ok, ss, p, stored := CopyStrings(buf, dotu, strs, so);
    if !ok { return 0, d, stored; }
    n, d := Complete(buf, base, d, ss, p, dotu);
  }

  /** Without storage (strs is nil) the struct gets empty strings. */
  method ConvM2DBare(buf: bytes, base: Dir, dotu: bool) returns (n: nat, d: Dir)
    requires |buf| >= FIXED
    ensures n == if ReadDir(buf, base, dotu).None? then 0 else ReadDir(buf, base, dotu).value.1
    ensures n != 0 ==> d == NoStrings(ReadDir(buf, base, dotu).value.0)
  {
    d := TakeFixed(buf, base);
    var ok, ss, p := SkipStrings(buf, dotu);
    if !ok { return 0, d; }
    n, d := Complete(buf, base, d, ss, p, dotu);
    d := NoStrings(d);
  }

  function NoStrings(d: Dir): Dir { d.(name := [], uid := [], gid := [], muid := [], ext := []) }

  method SkipStrings(buf: bytes, dotu: bool) returns (ok: bool, ss: seq<bytes>, p: nat)
    requires |buf| >= FIXED
    ensures ok <==> ReadStrings(buf, FIXED, NStrings(dotu)).Some?
    ensures ok ==> ReadStrings(buf, FIXED, NStrings(dotu)).value == (ss, p)
  {
    ghost var k := NStrings(dotu);
    p, ss := FIXED, [];
    ResumeEnds(buf, p, k, ss);
    for i := 0 to NStrings(dotu)
      invariant |ss| == i && FIXED <= p <= |buf|
      invariant Resume(buf, p, k - i, ss) == ReadStrings(buf, FIXED, k)
    {
      ResumeNext(buf, p, k - i, ss);
      if p + 2 > |buf| { return false, ss, p; }
      var ns := Read16(buf, p);
      p := p + 2;
      if p + ns > |buf| { return false, ss, p; }
      ss := ss + [buf[p..p + ns]];
      p := p + ns;
    }
    ResumeEnds(buf, p, 0, ss);
    ok := true;
  }

  // ----- laws -----

  /** statcheck accepts a buffer exactly when convM2D consumes all of it. */
  lemma CheckAgrees(s: bytes, base: Dir, dotu: bool)
    requires |s| >= FIXED
    ensures Checks(s, dotu) <==> ReadDir(s, base, dotu).Some? && ReadDir(s, base, dotu).value.1 == |s|
  {
    CheckMeans(s, dotu);
    ReadEnds(s, base, dotu);
  }

  /** What convD2M writes, with anything behind it, decodes to the same entry, exactly when no string is too
      long for its count. */
  lemma StatRoundTrip(d: Dir, rest: bytes, base: Dir, dotu: bool)
    ensures var s := StatWire(d, dotu) + rest;
      && |s| >= FIXED
      && (ShortStrings(Strings(d, dotu)) <==>
          ReadDir(s, base, dotu).Some? && ReadDir(s, base, dotu).value.1 == StatSize(d, dotu) &&
            SameDir(d, ReadDir(s, base, dotu).value.0, dotu))
  {
    var s := StatWire(d, dotu) + rest;
    var n := StatSize(d, dotu);
    DirFits(d, dotu);
    DirBytes(d, dotu);
    assert s[2..n] == Encs(DirFields(d, dotu));
    if ShortStrings(Strings(d, dotu)) {
      ReadComplete(s, d, n, base, dotu);
    } else if ReadDir(s, base, dotu).Some? {
      ReadSound(s, base, dotu);
      var e := ReadDir(s, base, dotu).value.0;
      DirFits(e, dotu);
    }
  }
}
