/** NinePDataCodec.swift and NinePWireCodec.swift: the reader and writer that the Swift client uses, and its own
    way of taking a directory stream apart. A Data starts at index 0 here, and a Swift String is whatever utf8,
    the decoder, makes of its bytes. */
module SwiftWire {
  import opened Codec
  import opened DirPackage
  import opened Options
  import opened Sequences
  import opened Stat

  type Utf8<T> = bytes -> Option<T>

  // ----- the reader -----

  /** The counted string at p. */
  function OneString(s: bytes, p: nat): (r: Option<bytes>)
    ensures r.Some? ==> p + 2 + |r.value| <= |s|
  {
    if p + 2 > |s| then None
    else
      var n := Get16(s, p);
      if p + 2 + n > |s| then None else Some(s[p + 2..p + 2 + n])
  }

  function TextAt<T>(s: bytes, p: nat, utf8: Utf8<T>): Option<T> {
    if OneString(s, p).None? then None else utf8(OneString(s, p).value)
  }

  /** Each method throws, and returns None here, exactly when the data end too early. */
  class Reader {
    const data: bytes
    var idx: nat

    ghost predicate Valid()
      reads this
    {
      idx <= |data|
    }

    constructor (data: bytes)
      ensures Valid() && this.data == data && idx == 0
    {
      this.data := data;
      idx := 0;
    }

    method Need(n: nat) returns (ok: bool)
      ensures ok <==> idx + n <= |data|
    {
      ok := |data| - idx >= n;
    }

    method U8() returns (r: Option<u8>)
      requires Valid()
      modifies this
      ensures Valid() && r == if old(idx) < |data| then Some(Get8(data, old(idx))) else None
      ensures r.Some? ==> idx == old(idx) + 1
    {
      var ok := Need(1);
      if !ok { return None; }
      r := Some(data[idx]);
      idx := idx + 1;
    }

    method U16() returns (r: Option<u16>)
      requires Valid()
      modifies this
      ensures Valid() && r == if old(idx) + 2 <= |data| then Some(Get16(data, old(idx))) else None
      ensures r.Some? ==> idx == old(idx) + 2
    {
      var b0 := U8();
      if b0.None? { return None; }
      var b1 := U8();
      if b1.None? { return None; }
      Gbit16At(data, old(idx));
      r := Some(Gbit16(b0.value, b1.value));
    }

    method U32() returns (r: Option<u32>)
      requires Valid()
      modifies this
      ensures Valid() && r == if old(idx) + 4 <= |data| then Some(Get32(data, old(idx))) else None
      ensures r.Some? ==> idx == old(idx) + 4
    {
      var b0 := U8();
      if b0.None? { return None; }
      var b1 := U8();
      if b1.None? { return None; }
      var b2 := U8();
      if b2.None? { return None; }
      var b3 := U8();
      if b3.None? { return None; }
      Gbit32At(data, old(idx));
      r := Some(Gbit32(b0.value, b1.value, b2.value, b3.value));
    }

    method U64() returns (r: Option<u64>)
      requires Valid()
      modifies this
      ensures Valid() && r == if old(idx) + 8 <= |data| then Some(Get64(data, old(idx))) else None
      ensures r.Some? ==> idx == old(idx) + 8
    {
      var lo := U32();
      if lo.None? { return None; }
      var hi := U32();
      if hi.None? { return None; }
      Get64Halves(data, old(idx));
      r := Some(Joined(lo.value, hi.value));
    }

    method Bytes(n: nat) returns (r: Option<bytes>)
      requires Valid()
      modifies this
      ensures Valid() && r == if old(idx) + n <= |data| then Some(data[old(idx)..old(idx) + n]) else None
      ensures r.Some? ==> idx == old(idx) + n
    {
      var ok := Need(n);
      if !ok { return None; }
      r := Some(data[idx..idx + n]);
      idx := idx + n;
    }

    method Str<T>(utf8: Utf8<T>) returns (r: Option<T>)
      requires Valid()
      modifies this
      ensures Valid() && r == TextAt(data, old(idx), utf8)
      ensures r.Some? ==> idx == old(idx) + 2 + |OneString(data, old(idx)).value|
    {
      var n := U16();
      if n.None? { return None; }
      var b := Bytes(n.value);
      if b.None? { return None; }
      r := utf8(b.value);
    }

    method DecodeQid() returns (r: Option<Qid>)
      requires Valid()
      modifies this
      ensures Valid() && r == if old(idx) + QIDSZ <= |data| then Some(QidAt(data, old(idx))) else None
      ensures r.Some? ==> idx == old(idx) + QIDSZ
    {
      var typ := U8();
      if typ.None? { return None; }
      var vers := U32();
      if vers.None? { return None; }
      var path := U64();
      if path.None? { return None; }
      r := Some(Qid(typ.value, vers.value, path.value));
    }
  }

  function QidAt(s: bytes, p: nat): Qid
    requires p + QIDSZ <= |s|
  {
    Qid(Get8(s, p), Get32(s, p + 1), Get64(s, p + 5))
  }

  // ----- one entry -----

  datatype FileStat<T> = FileStat(qid: Qid, mode: u32, atime: u32, mtime: u32, length: u64, name: T, uid: T, gid: T,
    muid: T)

  /** The k strings from p on, decoded. */
  function TextsAt<T>(s: bytes, p: nat, k: nat, utf8: Utf8<T>): (r: Option<seq<T>>)
    ensures r.Some? ==> |r.value| == k
    decreases k, p
  {
    if k == 0 then Some([])
    else if TextAt(s, p, utf8).None? then None
    else
      var r := TextsAt(s, p + 2 + |OneString(s, p).value|, k - 1, utf8);
      if r.None? then None else Some([TextAt(s, p, utf8).value] + r.value)
  }

  /** The size in front, the type and the device are read and dropped; whatever follows the four strings is
      not looked at. */
  function StatOf<T>(e: bytes, utf8: Utf8<T>): Option<FileStat<T>> {
    if |e| < FIXED then None
    else
      var r := TextsAt(e, FIXED, 4, utf8);
      if r.None? then None
      else Some(FileStat(QidAt(e, 8), Get32(e, 21), Get32(e, 25), Get32(e, 29), Get64(e, 33),
                         r.value[0], r.value[1], r.value[2], r.value[3]))
  }

  method DecodeStat<T>(statData: bytes, utf8: Utf8<T>) returns (r: Option<FileStat<T>>)
    ensures r == StatOf(statData, utf8)
  {
    var rd := new Reader(statData);
    var size := rd.U16();
    if size.None? { return None; }
    var typ := rd.U16();
    if typ.None? { return None; }
    var dev := rd.U32();
    if dev.None? { return None; }
    var qid := rd.DecodeQid();
    if qid.None? { return None; }
    var mode := rd.U32();
    if mode.None? { return None; }
    var atime := rd.U32();
    if atime.None? { return None; }
    var mtime := rd.U32();
    if mtime.None? { return None; }
    var length := rd.U64();
    if length.None? { return None; }
    var names := DecodeNames(rd, utf8);
    if names.None? { return None; }
    r := Some(FileStat(qid.value, mode.value, atime.value, mtime.value, length.value,
                       names.value[0], names.value[1], names.value[2], names.value[3]));
  }

  function Behind<T>(front: seq<T>, r: Option<seq<T>>): Option<seq<T>> {
    if r.None? then None else Some(front + r.value)
  }

  lemma NothingInFront<T>(r: Option<seq<T>>)
    ensures Behind([], r) == r
  {
    if r.Some? { assert [] + r.value == r.value; }
  }

  lemma NothingBehind<T>(front: seq<T>)
    ensures Behind(front, Some([])) == Some(front)
  {
    assert front + [] == front;
  }

  lemma BehindMore<T>(front: seq<T>, x: T, r: Option<seq<T>>)
    ensures Behind(front, Behind([x], r)) == Behind(front + [x], r)
  {
    if r.Some? { Assoc(front, [x], r.value); }
  }

  lemma TextsNext<T>(s: bytes, p: nat, k: nat, got: seq<T>, utf8: Utf8<T>)
    requires k > 0
    ensures Behind(got, TextsAt(s, p, k, utf8)) ==
      if TextAt(s, p, utf8).None? then None
      else Behind(got + [TextAt(s, p, utf8).value], TextsAt(s, p + 2 + |OneString(s, p).value|, k - 1, utf8))
  {
    if TextAt(s, p, utf8).Some? {
      var rest := TextsAt(s, p + 2 + |OneString(s, p).value|, k - 1, utf8);
      assert TextsAt(s, p, k, utf8) == Behind([TextAt(s, p, utf8).value], rest);
      BehindMore(got, TextAt(s, p, utf8).value, rest);
    }
  }

  /** One more string behind those already read, with k - 1 still to come. */
  method NextName<T>(rd: Reader, utf8: Utf8<T>, got: seq<T>, ghost k: nat, ghost all: Option<seq<T>>)
      returns (r: Option<seq<T>>)
    requires rd.Valid() && k > 0 && all == Behind(got, TextsAt(rd.data, rd.idx, k, utf8))
    modifies rd
    ensures rd.Valid() && all == if r.None? then None else Behind(r.value, TextsAt(rd.data, rd.idx, k - 1, utf8))
  {
    TextsNext(rd.data, rd.idx, k, got, utf8);
    var name := rd.Str(utf8);
    if name.None? { return None; }
    r := Some(got + [name.value]);
  }

  method DecodeNames<T>(rd: Reader, utf8: Utf8<T>) returns (r: Option<seq<T>>)
    requires rd.Valid()
    modifies rd
    ensures r == TextsAt(rd.data, old(rd.idx), 4, utf8)
  {
    ghost var all := TextsAt(rd.data, rd.idx, 4, utf8);
    NothingInFront(all);
    r := NextName(rd, utf8, [], 4, all);
    if r.None? { return; }
    r := NextName(rd, utf8, r.value, 3, all);
    if r.None? { return; }
    r := NextName(rd, utf8, r.value, 2, all);
    if r.None? { return; }
    r := NextName(rd, utf8, r.value, 1, all);
    if r.None? { return; }
    NothingBehind(r.value);
  }

  // ----- the whole stream -----

  /** The count in front of the piece at idx. */
  function SizeAt(data: bytes, idx: nat): (r: nat)
    requires idx + 2 <= |data|
  {
    data[idx] as nat + 256 * (data[idx + 1] as nat)
  }

  lemma SizeIs(s: bytes)
    requires |s| >= 2
    ensures SizeAt(s, 0) == FromLE(s[..2])
  {
    assert s[..2][1..] == [s[1]];
    FromLEStep(s[..2]);
    FromLEStep([s[1]]);
  }

  /** The stream cut by the counts alone. */
  function Pieces(s: bytes): Option<seq<bytes>>
    decreases |s|
  {
    if s == [] then Some([])
    else if |s| < 2 || 2 + SizeAt(s, 0) > |s| then None
    else Behind([s[..2 + SizeAt(s, 0)]], Pieces(s[2 + SizeAt(s, 0)..]))
  }

  /** What f makes of each of them, if it makes something of all. */
  function Collect<A, B>(es: seq<A>, f: A -> Option<B>): Option<seq<B>> {
    if es == [] then Some([])
    else if f(es[0]).None? then None
    else Behind([f(es[0]).value], Collect(es[1..], f))
  }

  lemma CollectCons<A, B>(e: A, es: seq<A>, f: A -> Option<B>)
    ensures Collect([e] + es, f) == if f(e).None? then None else Behind([f(e).value], Collect(es, f))
  {
    assert ([e] + es)[1..] == es;
  }

  lemma {:induction false} CollectIs<A, B>(es: seq<A>, f: A -> Option<B>)
    ensures Collect(es, f).Some? <==> forall j :: 0 <= j < |es| ==> f(es[j]).Some?
    ensures Collect(es, f).Some? ==>
      |Collect(es, f).value| == |es| && forall j :: 0 <= j < |es| ==> f(es[j]) == Some(Collect(es, f).value[j])
  {
    if es != [] {
      CollectIs(es[1..], f);
      assert forall j :: 1 <= j < |es| ==> es[j] == es[1..][j - 1];
    }
  }

  function Decoder<T>(utf8: Utf8<T>): bytes -> Option<FileStat<T>> { (e: bytes) => StatOf(e, utf8) }

  ghost function Split<T>(s: bytes, utf8: Utf8<T>): Option<seq<FileStat<T>>> { SplitWith(s, Decoder(utf8)) }

  ghost function SplitWith<B>(s: bytes, f: bytes -> Option<B>): Option<seq<B>> {
    if Pieces(s).None? then None else Collect(Pieces(s).value, f)
  }

  /** The stream s with its first piece taken off. */
  lemma SplitStep<B>(s: bytes, m: nat, f: bytes -> Option<B>)
    requires 2 <= m <= |s| && m == 2 + SizeAt(s, 0)
    ensures SplitWith(s, f) == if f(s[..m]).None? then None else Behind([f(s[..m]).value], SplitWith(s[m..], f))
  {
    if Pieces(s[m..]).Some? { CollectCons(s[..m], Pieces(s[m..]).value, f); }
  }

  lemma SplitEnds<B>(data: bytes, idx: nat, f: bytes -> Option<B>)
    requires idx < |data| && (idx + 2 > |data| || idx + 2 + SizeAt(data, idx) > |data|)
    ensures SplitWith(data[idx..], f).None?
  {
    if idx + 2 <= |data| { assert SizeAt(data[idx..], 0) == SizeAt(data, idx); }
  }

  /** Behind what has been found already, the stream from idx on. */
  lemma SplitNext<B>(data: bytes, idx: nat, next: nat, found: seq<B>, f: bytes -> Option<B>)
    requires idx + 2 <= next <= |data| && next == idx + 2 + SizeAt(data, idx)
    ensures Behind(found, SplitWith(data[idx..], f)) ==
      if f(data[idx..next]).None? then None else Behind(found + [f(data[idx..next]).value], SplitWith(data[next..], f))
  {
    var s, m := data[idx..], next - idx;
    assert SizeAt(s, 0) == SizeAt(data, idx) && s[..m] == data[idx..next] && s[m..] == data[next..];
    SplitStep(s, m, f);
    if f(s[..m]).Some? { BehindMore(found, f(s[..m]).value, SplitWith(s[m..], f)); }
  }

  /** Where the piece at idx ends; None if the data end before it does. */
  method PieceEnd<B>(data: bytes, idx: nat, ghost f: bytes -> Option<B>) returns (next: Option<nat>)
    requires idx < |data|
    ensures next.None? ==> SplitWith(data[idx..], f).None?
    ensures next.Some? ==> idx + 2 <= next.value <= |data| && next.value == idx + 2 + SizeAt(data, idx)
  {
    if |data| - idx < 2 {
      SplitEnds(data, idx, f);
      return None;
    }
    var sz := SizeAt(data, idx);
    var total := 2 + sz;
    if |data| - idx < total {
      SplitEnds(data, idx, f);
      return None;
    }
    next := Some(idx + total);
  }

  method SplitDirReadIntoStats<T>(data: bytes, utf8: Utf8<T>) returns (r: Option<seq<FileStat<T>>>)
    ensures r == Split(data, utf8)
  {
    var stats: seq<FileStat<T>> := [];
    var idx := 0;
    ghost var f := Decoder(utf8);
    ghost var all := SplitWith(data, f);
    assert data[0..] == data;
    NothingInFront(all);
    while idx < |data|
      invariant idx <= |data|
      invariant Behind(stats, SplitWith(data[idx..], f)) == all
    {
      var next := PieceEnd(data, idx, f);
      if next.None? { return None; }
      SplitNext(data, idx, next.value, stats, f);
      var st := DecodeStat(data[idx..next.value], utf8);
      if st.None? { return None; }
      stats := stats + [st.value];
      idx := next.value;
    }
    assert data[idx..] == [];
    NothingBehind(stats);
    r := Some(stats);
  }

  // ----- the two clients agree -----

  ghost predicate Readable<T>(d: Dir, utf8: Utf8<T>) {
    utf8(d.name).Some? && utf8(d.uid).Some? && utf8(d.gid).Some? && utf8(d.muid).Some?
  }

  ghost function Shown<T>(d: Dir, utf8: Utf8<T>): FileStat<T>
    requires Readable(d, utf8)
  {
    FileStat(d.qid, d.mode, d.atime, d.mtime, d.length, utf8(d.name).value, utf8(d.uid).value, utf8(d.gid).value,
      utf8(d.muid).value)
  }

  lemma FirstString(s: bytes, p: nat, m: nat, next: nat, ss: seq<bytes>)
    requires m > 0 && p <= |s| && ReadStrings(s, p, m).Some? && ss == ReadStrings(s, p, m).value.0
    requires p + 2 <= |s| && next == p + 2 + FromLE(s[p..p + 2])
    ensures next <= |s| && OneString(s, p) == Some(ss[0]) && |ss[0]| == next - p - 2
    ensures ReadStrings(s, next, m - 1).Some? && ss == [ss[0]] + ReadStrings(s, next, m - 1).value.0
  {}

  /** Of strings that are there, the first k are decoded where the kernel client finds them. */
  lemma {:induction false} TextsAre<T>(s: bytes, p: nat, k: nat, m: nat, utf8: Utf8<T>)
    requires k <= m && p <= |s| && ReadStrings(s, p, m).Some?
    ensures TextsAt(s, p, k, utf8) == Collect(ReadStrings(s, p, m).value.0[..k], utf8)
    decreases k
  {
    if k > 0 {
      var next, ss := p + 2 + FromLE(s[p..p + 2]), ReadStrings(s, p, m).value.0;
      FirstString(s, p, m, next, ss);
      var rest := ReadStrings(s, next, m - 1).value.0;
      TextsAre(s, next, k - 1, m - 1, utf8);
      CollectCons(ss[0], rest[..k - 1], utf8);
      assert ss[..k] == [ss[0]] + rest[..k - 1];
    }
  }

  lemma UnpackedNumbers(e: bytes, d: Dir, blank: Dir, dotu: bool)
    requires Unpacks(e, d, blank, dotu)
    ensures d.qid == QidAt(e, 8) && d.mode == Get32(e, 21) && d.atime == Get32(e, 25) && d.mtime == Get32(e, 29) &&
      d.length == Get64(e, 33)
  {}

  lemma UnpackedNames(e: bytes, d: Dir, blank: Dir, dotu: bool)
    requires Unpacks(e, d, blank, dotu)
    ensures ReadStrings(e, FIXED, NStrings(dotu)).Some?
    ensures var ss := ReadStrings(e, FIXED, NStrings(dotu)).value.0;
      d.name == ss[0] && d.uid == ss[1] && d.gid == ss[2] && d.muid == ss[3]
  {}

  /** An entry that the kernel client unpacks to d shows the same to the Swift client, in either dialect, or is
      refused for a name that is no UTF-8. */
  lemma EntryAgrees<T>(e: bytes, d: Dir, blank: Dir, dotu: bool, utf8: Utf8<T>)
    requires Unpacks(e, d, blank, dotu)
    ensures StatOf(e, utf8) == if Readable(d, utf8) then Some(Shown(d, utf8)) else None
  {
    UnpackedNumbers(e, d, blank, dotu);
    UnpackedNames(e, d, blank, dotu);
    FourNames(e, ReadStrings(e, FIXED, NStrings(dotu)).value.0, NStrings(dotu), utf8);
  }

  lemma FourNames<T>(e: bytes, ss: seq<bytes>, m: nat, utf8: Utf8<T>)
    requires |e| >= FIXED && m >= 4 && ReadStrings(e, FIXED, m).Some? && ss == ReadStrings(e, FIXED, m).value.0
    ensures var r := TextsAt(e, FIXED, 4, utf8);
      && (r.Some? <==> utf8(ss[0]).Some? && utf8(ss[1]).Some? && utf8(ss[2]).Some? && utf8(ss[3]).Some?)
      && (r.Some? ==> utf8(ss[0]) == Some(r.value[0]) && utf8(ss[1]) == Some(r.value[1])
                      && utf8(ss[2]) == Some(r.value[2]) && utf8(ss[3]) == Some(r.value[3]))
  {
    TextsAre(e, FIXED, 4, m, utf8);
    CollectIs(ss[..4], utf8);
  }

  ghost predicate AllCheck(es: seq<bytes>, dotu: bool) { forall j :: 0 <= j < |es| ==> Checks(es[j], dotu) }

  lemma AllCheckCons(e: bytes, es: seq<bytes>, dotu: bool)
    ensures AllCheck([e] + es, dotu) <==> Checks(e, dotu) && AllCheck(es, dotu)
  {
    var all := [e] + es;
    assert all[0] == e && forall j :: 0 <= j < |es| ==> all[j + 1] == es[j];
    if Checks(e, dotu) && AllCheck(es, dotu) {
      forall j | 0 <= j < |all| ensures Checks(all[j], dotu) { assert j > 0 ==> all[j] == es[j - 1]; }
    }
  }

  lemma EntriesFirst(s: bytes, m: nat, dotu: bool)
    requires 2 <= m <= |s| && m == 2 + FromLE(s[..2])
    ensures Entries(s, dotu) == if Checks(s[..m], dotu) then Behind([s[..m]], Entries(s[m..], dotu)) else None
  {}

  lemma PiecesFirst(s: bytes, m: nat)
    requires 2 <= m <= |s| && m == 2 + SizeAt(s, 0)
    ensures Pieces(s) == Behind([s[..m]], Pieces(s[m..]))
  {}

  /** The kernel client's entries are the pieces, provided each of them is sound. */
  lemma {:induction false} EntriesArePieces(s: bytes, dotu: bool)
    ensures Entries(s, dotu) == if Pieces(s).Some? && AllCheck(Pieces(s).value, dotu) then Pieces(s) else None
    decreases |s|
  {
    if |s| >= 2 {
      SizeIs(s);
      var m := 2 + SizeAt(s, 0);
      if m <= |s| {
        EntriesArePieces(s[m..], dotu);
        EntriesFirst(s, m, dotu);
        PiecesFirst(s, m);
        if Pieces(s[m..]).Some? { AllCheckCons(s[..m], Pieces(s[m..]).value, dotu); }
      }
    }
  }

  /** Every stream that dirpackage accepts is accepted by the Swift client too, with as many entries and the same
      in them, exactly if all the names it shows are UTF-8. */
  lemma StreamAgrees<T>(s: bytes, ds: seq<Dir>, blank: Dir, dotu: bool, utf8: Utf8<T>)
    requires Entries(s, dotu).Some? && |ds| == |Entries(s, dotu).value| &&
      AllUnpack(Entries(s, dotu).value, ds, blank, dotu)
    ensures Split(s, utf8).Some? <==> forall j :: 0 <= j < |ds| ==> Readable(ds[j], utf8)
    ensures Split(s, utf8).Some? ==>
      |Split(s, utf8).value| == |ds| && forall j :: 0 <= j < |ds| ==>
      Readable(ds[j], utf8) && Split(s, utf8).value[j] == Shown(ds[j], utf8)
  {
    EntriesArePieces(s, dotu);
    var es := Entries(s, dotu).value;
    CollectIs(es, Decoder(utf8));
    forall j | 0 <= j < |ds|
      ensures StatOf(es[j], utf8) == if Readable(ds[j], utf8) then Some(Shown(ds[j], utf8)) else None
    {
      assert Unpacks(es[j], ds[j], blank, dotu);
      EntryAgrees(es[j], ds[j], blank, dotu, utf8);
    }
  }

  /** The other way about it takes more: what the Swift client accepts dirpackage accepts exactly if statcheck
      accepts each of the pieces. */
  lemma SwiftIsLooser<T>(s: bytes, dotu: bool, utf8: Utf8<T>)
    requires Split(s, utf8).Some?
    ensures Entries(s, dotu).Some? <==> AllCheck(Pieces(s).value, dotu)
  {
    EntriesArePieces(s, dotu);
  }

  /** An entry with four empty names, and one byte that belongs to nothing. */
  const SPARE: bytes := [48] + seq(49, _ => 0)

  ghost predicate Blank(s: bytes) { |s| == 50 && forall p :: 2 <= p <= 48 ==> Get16(s, p) == 0 }

  lemma {:induction false} BlankStrings(s: bytes, p: nat, k: nat)
    requires Blank(s) && 2 <= p <= 50
    ensures p + 2 * k > 50 ==> ReadStrings(s, p, k).None?
    ensures p + 2 * k <= 50 ==> ReadStrings(s, p, k).Some? && ReadStrings(s, p, k).value.1 == p + 2 * k
    ensures p + 2 * k <= 50 ==> forall i :: 0 <= i < k ==> ReadStrings(s, p, k).value.0[i] == []
    decreases k
  {
    if k > 0 && p + 2 <= 50 {
      assert Get16(s, p) == 0;
      BlankStrings(s, p + 2, k - 1);
    }
  }

  lemma BlankUnchecked(s: bytes, dotu: bool)
    requires Blank(s)
    ensures !Checks(s, dotu)
  {
    BlankStrings(s, FIXED, NStrings(dotu));
    forall d ensures !Decodes(s, d, 50, dotu) {
      if Decodes(s, d, 50, dotu) {
        ReadComplete(s, d, 50, d, dotu);
        assert false;
      }
    }
  }

  lemma BlankShown<T>(s: bytes, utf8: Utf8<T>)
    requires Blank(s) && utf8([]).Some?
    ensures StatOf(s, utf8).Some?
  {
    BlankStrings(s, FIXED, 4);
    FourNames(s, ReadStrings(s, FIXED, 4).value.0, 4, utf8);
  }

  /** It is such a stream: one entry for the Swift client, refused by dirpackage in both dialects. */
  lemma SpareByte<T>(dotu: bool, utf8: Utf8<T>)
    requires utf8([]).Some?
    ensures Split(SPARE, utf8).Some? && Entries(SPARE, dotu).None?
  {
    var s := SPARE;
    assert SizeAt(s, 0) == 48 && s[50..] == [] && s[..50] == s;
    forall p | 2 <= p <= 48 ensures Get16(s, p) == 0 { Gbit16At(s, p); }
    assert Blank(s);
    BlankShown(s, utf8);
    SplitStep(s, 50, Decoder(utf8));
    BlankUnchecked(s, dotu);
    EntriesArePieces(s, dotu);
    assert Pieces(s).Some? ==> Pieces(s).value[0] == s;
  }
}
