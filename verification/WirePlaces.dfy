/** Where every field of the 27 messages lies on the wire, byte by byte (sections version to stat of section 5 of the
    Plan 9 Programmer's Manual): the layout of Messages once more, without its fields. */
module WirePlaces {
  import opened Codec
  import opened Messages
  import opened Sequences

  /** From p on s encodes the fields from number i on, and nothing else. */
  ghost predicate Rest(s: bytes, p: nat, fs: seq<Field>, i: nat) { i <= |fs| && p <= |s| && s[p..] == Encs(fs[i..]) }

  lemma Peel(s: bytes, p: nat, x: bytes, rest: bytes)
    requires p <= |s| && s[p..] == x + rest
    ensures p + |x| <= |s| && s[p..p + |x|] == x && s[p + |x|..] == rest
  {
    assert s[p..][..|x|] == x && s[p..][|x|..] == rest;
  }

  lemma PeelField(s: bytes, p: nat, fs: seq<Field>, i: nat, x: bytes)
    requires Rest(s, p, fs, i) && i < |fs| && x == Enc(fs[i])
    ensures p + |x| <= |s| && s[p..p + |x|] == x && Rest(s, p + |x|, fs, i + 1)
  {
    assert fs[i..][0] == fs[i] && fs[i..][1..] == fs[i + 1..];
    Peel(s, p, x, Encs(fs[i + 1..]));
  }

  /** at is Rest for one message, looked into only where Rest is mentioned. */
  ghost predicate Means(at: (nat, nat) -> bool, s: bytes, fs: seq<Field>) {
    forall p, i {:trigger Rest(s, p, fs, i)} :: at(p, i) <==> Rest(s, p, fs, i)
  }

  lemma TakeNum(at: (nat, nat) -> bool, s: bytes, p: nat, fs: seq<Field>, i: nat, w: nat, v: nat)
    requires Means(at, s, fs) && at(p, i) && i < |fs| && fs[i] == Num(w, v)
    ensures p + w <= |s| && s[p..p + w] == LE(v, w) && at(p + w, i + 1)
  {
    assert Rest(s, p, fs, i);
    PeelField(s, p, fs, i, LE(v, w));
  }

  lemma CountedParts(s: bytes, p: nat, fs: seq<Field>, i: nat, c: bytes, q: nat, t: bytes, r: nat)
    requires Rest(s, p, fs, i) && i < |fs| && Enc(fs[i]) == c + t && q == p + |c| && r == q + |t|
    ensures r <= |s| && s[p..q] == c && s[q..r] == t && Rest(s, r, fs, i + 1)
  {
    PeelField(s, p, fs, i, c + t);
    SubSlice(s, p, r, 0, |c|);
    SubSlice(s, p, r, |c|, |c| + |t|);
  }

  lemma TakeCounted(at: (nat, nat) -> bool, s: bytes, p: nat, fs: seq<Field>, i: nat, c: bytes, q: nat, t: bytes,
      r: nat)
    requires Means(at, s, fs) && at(p, i) && i < |fs| && Enc(fs[i]) == c + t && q == p + |c| && r == q + |t|
    ensures r <= |s| && s[p..q] == c && s[q..r] == t && at(r, i + 1)
  {
    assert Rest(s, p, fs, i);
    CountedParts(s, p, fs, i, c, q, t, r);
  }

  lemma TextCount(t: bytes, w: nat)
    requires w == 2
    ensures Enc(Text(t)) == LE(|t|, w) + t
  {}

  /** A string, counted by w bytes; w is 2. */
  lemma TakeText(at: (nat, nat) -> bool, s: bytes, p: nat, fs: seq<Field>, i: nat, t: bytes, w: nat)
    requires Means(at, s, fs) && at(p, i) && i < |fs| && fs[i] == Text(t) && w == 2
    ensures p + w + |t| <= |s| && s[p..p + w] == LE(|t|, w) && s[p + w..p + w + |t|] == t
    ensures at(p + w + |t|, i + 1)
  {
    TextCount(t, w);
    TakeCounted(at, s, p, fs, i, LE(|t|, w), p + w, t, p + w + |t|);
  }

  /** Two strings in a row. */
  lemma TakeTexts(at: (nat, nat) -> bool, s: bytes, p: nat, fs: seq<Field>, i: nat, t: bytes, q: nat, t': bytes, r: nat,
      w: nat)
    requires Means(at, s, fs) && at(p, i) && i + 1 < |fs| && fs[i] == Text(t) && fs[i + 1] == Text(t') && w == 2
    requires q == p + w + |t| && r == q + w + |t'|
    ensures r <= |s| && s[p..p + w] == LE(|t|, w) && s[p + w..q] == t && s[q..q + w] == LE(|t'|, w) && s[q + w..r] == t'
    ensures at(r, i + 2)
  {
    TakeText(at, s, p, fs, i, t, w);
    TakeText(at, s, q, fs, i + 1, t', w);
  }

  lemma TakeBlob(at: (nat, nat) -> bool, s: bytes, p: nat, fs: seq<Field>, i: nat, w: nat, t: bytes)
    requires Means(at, s, fs) && at(p, i) && i < |fs| && fs[i] == Blob(w, t)
    ensures p + w + |t| <= |s| && s[p..p + w] == LE(|t|, w) && s[p + w..p + w + |t|] == t
    ensures at(p + w + |t|, i + 1)
  {
    TakeCounted(at, s, p, fs, i, LE(|t|, w), p + w, t, p + w + |t|);
  }

  /** typ[1] vers[4] path[8] */
  ghost predicate QidLies(s: bytes, p: nat, q: Qid) {
    && p + 13 <= |s|
    && s[p..p + 1] == LE(q.typ, 1) && s[p + 1..p + 5] == LE(q.vers, 4) && s[p + 5..p + 13] == LE(q.path, 8)
  }

  lemma QidBytes(s: bytes, p: nat, q: Qid)
    requires p + QIDSZ <= |s| && s[p..p + QIDSZ] == EncQid(q)
    ensures QidLies(s, p, q)
  {
    SubSlice(s, p, p + 13, 0, 1);
    SubSlice(s, p, p + 13, 1, 5);
    SubSlice(s, p, p + 13, 5, 13);
  }

  lemma TakeQid(at: (nat, nat) -> bool, s: bytes, p: nat, fs: seq<Field>, i: nat, q: Qid)
    requires Means(at, s, fs) && at(p, i) && i < |fs| && fs[i] == One(q)
    ensures QidLies(s, p, q) && at(p + 13, i + 1)
  {
    assert Rest(s, p, fs, i);
    PeelField(s, p, fs, i, EncQid(q));
    QidBytes(s, p, q);
  }

  lemma End(at: (nat, nat) -> bool, s: bytes, p: nat, fs: seq<Field>)
    requires Means(at, s, fs) && at(p, |fs|)
    ensures |s| == p
  {
    assert Rest(s, p, fs, |fs|);
    assert fs[|fs|..] == [];
  }

  /** The word that the dialect .u adds, or nothing. */
  lemma TakeMore(at: (nat, nat) -> bool, s: bytes, p: nat, fs: seq<Field>, i: nat, dotu: bool, v: nat)
    requires Means(at, s, fs) && at(p, i) && |fs| == (if dotu then i + 1 else i) && (dotu ==> fs[i] == Num(4, v))
    ensures |s| == (if dotu then p + 4 else p) && (dotu ==> s[p..p + 4] == LE(v, 4))
  {
    if dotu {
      TakeNum(at, s, p, fs, i, 4, v);
      End(at, s, p + 4, fs);
    } else {
      End(at, s, p, fs);
    }
  }

  /** uname[s] aname[s], and what .u adds. */
  lemma TakeUser(at: (nat, nat) -> bool, s: bytes, p: nat, fs: seq<Field>, i: nat, t: bytes, q: nat, t': bytes, r: nat,
      w: nat, dotu: bool, v: nat)
    requires Means(at, s, fs) && at(p, i) && |fs| == (if dotu then i + 3 else i + 2) && w == 2
    requires fs[i] == Text(t) && fs[i + 1] == Text(t') && (dotu ==> fs[i + 2] == Num(4, v))
    requires q == p + w + |t| && r == q + w + |t'|
    ensures r <= |s| && s[p..p + w] == LE(|t|, w) && s[p + w..q] == t && s[q..q + w] == LE(|t'|, w) && s[q + w..r] == t'
    ensures |s| == (if dotu then r + 4 else r) && (dotu ==> s[r..r + 4] == LE(v, 4))
  {
    TakeTexts(at, s, p, fs, i, t, q, t', r, w);
    TakeMore(at, s, r, fs, i + 2, dotu, v);
  }

  // ----- lists -----

  /** Name k of a list starts where the names before it end. */
  lemma {:induction false} NameLies(names: seq<bytes>, k: nat)
    requires k < |names|
    ensures var s, p := EncNames(names), |EncNames(names[..k])|;
      p + 2 + |names[k]| <= |s| && s[p..p + 2] == LE(|names[k]|, 2) && s[p + 2..p + 2 + |names[k]|] == names[k]
  {
    if k == 0 {
      assert names[..0] == [];
    } else {
      var n, r, q := EncString(names[0]), EncNames(names[1..]), |EncNames(names[1..][..k - 1])|;
      NameLies(names[1..], k - 1);
      NamesBefore(names, k);
      Behind(n, r, q, 2);
      Behind(n, r, q + 2, |names[k]|);
    }
  }

  lemma NamesBefore(names: seq<bytes>, k: nat)
    requires 0 < k <= |names|
    ensures |EncNames(names[..k])| == |EncString(names[0])| + |EncNames(names[1..][..k - 1])|
  {
    assert names[..k][1..] == names[1..][..k - 1] && names[..k][0] == names[0];
  }

  lemma Behind(n: bytes, r: bytes, q: nat, m: nat)
    requires q + m <= |r|
    ensures (n + r)[|n| + q..|n| + q + m] == r[q..q + m]
  {}

  /** Qid k of a list lies at 13 * k. */
  lemma {:induction false} QidLiesAt(qids: seq<Qid>, k: nat)
    requires k < |qids|
    ensures 13 * k + 13 <= |EncQids(qids)| && EncQids(qids)[13 * k..13 * k + 13] == EncQid(qids[k])
  {
    if k > 0 {
      QidLiesAt(qids[1..], k - 1);
      Behind(EncQid(qids[0]), EncQids(qids[1..]), 13 * (k - 1), 13);
    }
  }

  // ----- the messages -----

  /** size[4] type[1] tag[2], then the fields of the type. */
  lemma HeaderLies(f: Fcall, dotu: bool, s: bytes) returns (at: (nat, nat) -> bool)
    requires s == Wire(f, dotu)
    ensures s[0..4] == LE(|s|, 4) && s[4..5] == LE(f.typ, 1) && s[5..7] == LE(f.tag, 2)
    ensures Means(at, s, Layout(f, dotu)) && at(7, 0)
  {
    var a, b, c, fs := LE(|s|, 4), LE(f.typ, 1), LE(f.tag, 2), Layout(f, dotu);
    at := (p: nat, i: nat) => Rest(s, p, fs, i);
    HeaderParts(s, a, b, c, Encs(fs));
    assert fs[0..] == fs;
    assert Rest(s, 7, fs, 0);
  }

  lemma HeaderParts(s: bytes, a: bytes, b: bytes, c: bytes, rest: bytes)
    requires s == (a + b + c) + rest && |a| == 4 && |b| == 1 && |c| == 2
    ensures s[0..4] == a && s[4..5] == b && s[5..7] == c && s[7..] == rest
  {}

  /** Tversion, Rversion: msize[4] version[s] */
  lemma VersionLies(f: Fcall, dotu: bool, s: bytes, v: nat)
    requires s == Wire(f, dotu) && (f.typ == TVERSION || f.typ == RVERSION) && v == |f.version|
    ensures |s| == 13 + v
    ensures s[7..11] == LE(f.msize, 4) && s[11..13] == LE(v, 2) && s[13..13 + v] == f.version
  {
    var at := HeaderLies(f, dotu, s);
    var fs := Layout(f, dotu);
    TakeNum(at, s, 7, fs, 0, 4, f.msize);
    TakeText(at, s, 11, fs, 1, f.version, 2);
    End(at, s, 13 + v, fs);
  }

  /** Tauth: afid[4] uname[s] aname[s], and n_uname[4] in .u */
  lemma TauthLies(f: Fcall, dotu: bool, s: bytes, u: nat, a: nat)
    requires s == Wire(f, dotu) && f.typ == TAUTH && u == |f.uname| && a == |f.aname|
    ensures |s| == if dotu then 19 + u + a else 15 + u + a
    ensures s[7..11] == LE(f.afid, 4) && s[11..13] == LE(u, 2) && s[13..13 + u] == f.uname
    ensures s[13 + u..15 + u] == LE(a, 2) && s[15 + u..15 + u + a] == f.aname
    ensures dotu ==> s[15 + u + a..19 + u + a] == LE(f.unamenum, 4)
  {
    var at := HeaderLies(f, dotu, s);
    var fs := Layout(f, dotu);
    TakeNum(at, s, 7, fs, 0, 4, f.afid);
    TakeUser(at, s, 11, fs, 1, f.uname, 13 + u, f.aname, 15 + u + a, 2, dotu, f.unamenum);
  }

  /** Rauth: aqid[13] */
  lemma RauthLies(f: Fcall, dotu: bool, s: bytes)
    requires s == Wire(f, dotu) && f.typ == RAUTH
    ensures |s| == 20
    ensures QidLies(s, 7, f.aqid)
  {
    var at := HeaderLies(f, dotu, s);
    var fs := Layout(f, dotu);
    TakeQid(at, s, 7, fs, 0, f.aqid);
    End(at, s, 20, fs);
  }

  /** Tattach: fid[4] afid[4] uname[s] aname[s], and n_uname[4] in .u */
  lemma TattachLies(f: Fcall, dotu: bool, s: bytes, u: nat, a: nat)
    requires s == Wire(f, dotu) && f.typ == TATTACH && u == |f.uname| && a == |f.aname|
    ensures |s| == if dotu then 23 + u + a else 19 + u + a
    ensures s[7..11] == LE(f.fid, 4) && s[11..15] == LE(f.afid, 4) && s[15..17] == LE(u, 2)
    ensures s[17..17 + u] == f.uname && s[17 + u..19 + u] == LE(a, 2) && s[19 + u..19 + u + a] == f.aname
    ensures dotu ==> s[19 + u + a..23 + u + a] == LE(f.unamenum, 4)
  {
    var at := HeaderLies(f, dotu, s);
    var fs := Layout(f, dotu);
    TakeNum(at, s, 7, fs, 0, 4, f.fid);
    TakeNum(at, s, 11, fs, 1, 4, f.afid);
    TakeUser(at, s, 15, fs, 2, f.uname, 17 + u, f.aname, 19 + u + a, 2, dotu, f.unamenum);
  }

  /** Rattach: qid[13] */
  lemma RattachLies(f: Fcall, dotu: bool, s: bytes)
    requires s == Wire(f, dotu) && f.typ == RATTACH
    ensures |s| == 20
    ensures QidLies(s, 7, f.qid)
  {
    var at := HeaderLies(f, dotu, s);
    var fs := Layout(f, dotu);
    TakeQid(at, s, 7, fs, 0, f.qid);
    End(at, s, 20, fs);
  }

  /** Rerror: ename[s], and errno[4] in .u */
  lemma RerrorLies(f: Fcall, dotu: bool, s: bytes, e: nat)
    requires s == Wire(f, dotu) && f.typ == RERROR && e == |f.ename|
    ensures |s| == if dotu then 13 + e else 9 + e
    ensures s[7..9] == LE(e, 2) && s[9..9 + e] == f.ename
    ensures dotu ==> s[9 + e..13 + e] == LE(f.errnum, 4)
  {
    var at := HeaderLies(f, dotu, s);
    var fs := Layout(f, dotu);
    TakeText(at, s, 7, fs, 0, f.ename, 2);
    TakeMore(at, s, 9 + e, fs, 1, dotu, f.errnum);
  }

  /** Tflush: oldtag[2] */
  lemma TflushLies(f: Fcall, dotu: bool, s: bytes)
    requires s == Wire(f, dotu) && f.typ == TFLUSH
    ensures |s| == 9
    ensures s[7..9] == LE(f.oldtag, 2)
  {
    var at := HeaderLies(f, dotu, s);
    var fs := Layout(f, dotu);
    TakeNum(at, s, 7, fs, 0, 2, f.oldtag);
    End(at, s, 9, fs);
  }

  /** Topen: fid[4] mode[1] */
  lemma TopenLies(f: Fcall, dotu: bool, s: bytes)
    requires s == Wire(f, dotu) && f.typ == TOPEN
    ensures |s| == 12
    ensures s[7..11] == LE(f.fid, 4) && s[11..12] == LE(f.mode, 1)
  {
    var at := HeaderLies(f, dotu, s);
    var fs := Layout(f, dotu);
    TakeNum(at, s, 7, fs, 0, 4, f.fid);
    TakeNum(at, s, 11, fs, 1, 1, f.mode);
    End(at, s, 12, fs);
  }

  /** Ropen, Rcreate: qid[13] iounit[4] */
  lemma OpenedLies(f: Fcall, dotu: bool, s: bytes)
    requires s == Wire(f, dotu) && (f.typ == ROPEN || f.typ == RCREATE)
    ensures |s| == 24
    ensures QidLies(s, 7, f.qid) && s[20..24] == LE(f.iounit, 4)
  {
    var at := HeaderLies(f, dotu, s);
    var fs := Layout(f, dotu);
    TakeQid(at, s, 7, fs, 0, f.qid);
    TakeNum(at, s, 20, fs, 1, 4, f.iounit);
    End(at, s, 24, fs);
  }

  lemma TakeNums(at: (nat, nat) -> bool, s: bytes, p: nat, fs: seq<Field>, i: nat, w: nat, v: nat, q: nat, w': nat,
      v': nat, r: nat)
    requires Means(at, s, fs) && at(p, i) && i + 1 < |fs| && fs[i] == Num(w, v) && fs[i + 1] == Num(w', v')
    requires q == p + w && r == q + w'
    ensures r <= |s| && s[p..q] == LE(v, w) && s[q..r] == LE(v', w') && at(r, i + 2)
  {
    TakeNum(at, s, p, fs, i, w, v);
    TakeNum(at, s, q, fs, i + 1, w', v');
  }

  lemma TcreateEnds(at: (nat, nat) -> bool, s: bytes, fs: seq<Field>, n: nat, dotu: bool, ext: bytes)
    requires Means(at, s, fs) && at(18 + n, 4) && |fs| == (if dotu then 5 else 4) && (dotu ==> fs[4] == Text(ext))
    ensures |s| == if dotu then 20 + n + |ext| else 18 + n
    ensures dotu ==> s[18 + n..20 + n] == LE(|ext|, 2) && s[20 + n..] == ext
  {
    if dotu {
      TakeText(at, s, 18 + n, fs, 4, ext, 2);
      End(at, s, 20 + n + |ext|, fs);
      assert s[20 + n..] == s[20 + n..|s|];
    } else {
      End(at, s, 18 + n, fs);
    }
  }

  /** Tcreate: fid[4] name[s] perm[4] mode[1], and extension[s] in .u */
  lemma TcreateLies(f: Fcall, dotu: bool, s: bytes, n: nat)
    requires s == Wire(f, dotu) && f.typ == TCREATE && n == |f.name|
    ensures |s| == if dotu then 20 + n + |f.ext| else 18 + n
    ensures s[7..11] == LE(f.fid, 4) && s[11..13] == LE(n, 2) && s[13..13 + n] == f.name
    ensures s[13 + n..17 + n] == LE(f.perm, 4) && s[17 + n..18 + n] == LE(f.mode, 1)
    ensures dotu ==> s[18 + n..20 + n] == LE(|f.ext|, 2) && s[20 + n..] == f.ext
  {
    var at := HeaderLies(f, dotu, s);
    var fs := Layout(f, dotu);
    TakeNum(at, s, 7, fs, 0, 4, f.fid);
    TakeText(at, s, 11, fs, 1, f.name, 2);
    TakeNums(at, s, 13 + n, fs, 2, 4, f.perm, 17 + n, 1, f.mode, 18 + n);
    TcreateEnds(at, s, fs, n, dotu, f.ext);
  }

  /** Tread: fid[4] offset[8] count[4] */
  lemma TreadLies(f: Fcall, dotu: bool, s: bytes)
    requires s == Wire(f, dotu) && f.typ == TREAD
    ensures |s| == 23
    ensures s[7..11] == LE(f.fid, 4) && s[11..19] == LE(f.offset, 8) && s[19..23] == LE(f.count, 4)
  {
    var at := HeaderLies(f, dotu, s);
    var fs := Layout(f, dotu);
    TakeNum(at, s, 7, fs, 0, 4, f.fid);
    TakeNum(at, s, 11, fs, 1, 8, f.offset);
    TakeNum(at, s, 19, fs, 2, 4, f.count);
    End(at, s, 23, fs);
  }

  /** Rread: count[4] data[count] */
  lemma RreadLies(f: Fcall, dotu: bool, s: bytes, d: nat)
    requires s == Wire(f, dotu) && f.typ == RREAD && d == |f.data|
    ensures |s| == 11 + d
    ensures s[7..11] == LE(d, 4) && s[11..11 + d] == f.data
  {
    var at := HeaderLies(f, dotu, s);
    var fs := Layout(f, dotu);
    TakeBlob(at, s, 7, fs, 0, 4, f.data);
    End(at, s, 11 + d, fs);
  }

  /** Twrite: fid[4] offset[8] count[4] data[count] */
  lemma TwriteLies(f: Fcall, dotu: bool, s: bytes, d: nat)
    requires s == Wire(f, dotu) && f.typ == TWRITE && d == |f.data|
    ensures |s| == 23 + d
    ensures s[7..11] == LE(f.fid, 4) && s[11..19] == LE(f.offset, 8) && s[19..23] == LE(d, 4)
    ensures s[23..23 + d] == f.data
  {
    var at := HeaderLies(f, dotu, s);
    var fs := Layout(f, dotu);
    TakeNum(at, s, 7, fs, 0, 4, f.fid);
    TakeNum(at, s, 11, fs, 1, 8, f.offset);
    TakeBlob(at, s, 19, fs, 2, 4, f.data);
    End(at, s, 23 + d, fs);
  }

  /** Rwrite: count[4] */
  lemma RwriteLies(f: Fcall, dotu: bool, s: bytes)
    requires s == Wire(f, dotu) && f.typ == RWRITE
    ensures |s| == 11
    ensures s[7..11] == LE(f.count, 4)
  {
    var at := HeaderLies(f, dotu, s);
    var fs := Layout(f, dotu);
    TakeNum(at, s, 7, fs, 0, 4, f.count);
    End(at, s, 11, fs);
  }

  /** Tclunk, Tremove, Tstat: fid[4] */
  lemma FidLies(f: Fcall, dotu: bool, s: bytes)
    requires s == Wire(f, dotu) && f.typ in [TCLUNK, TREMOVE, TSTAT]
    ensures |s| == 11
    ensures s[7..11] == LE(f.fid, 4)
  {
    var at := HeaderLies(f, dotu, s);
    var fs := Layout(f, dotu);
    TakeNum(at, s, 7, fs, 0, 4, f.fid);
    End(at, s, 11, fs);
  }

  /** Rstat: stat[n] */
  lemma RstatLies(f: Fcall, dotu: bool, s: bytes, t: nat)
    requires s == Wire(f, dotu) && f.typ == RSTAT && t == |f.stat|
    ensures |s| == 9 + t
    ensures s[7..9] == LE(t, 2) && s[9..9 + t] == f.stat
  {
    var at := HeaderLies(f, dotu, s);
    var fs := Layout(f, dotu);
    TakeBlob(at, s, 7, fs, 0, 2, f.stat);
    End(at, s, 9 + t, fs);
  }

  /** Twstat: fid[4] stat[n] */
  lemma TwstatLies(f: Fcall, dotu: bool, s: bytes, t: nat)
    requires s == Wire(f, dotu) && f.typ == TWSTAT && t == |f.stat|
    ensures |s| == 13 + t
    ensures s[7..11] == LE(f.fid, 4) && s[11..13] == LE(t, 2) && s[13..13 + t] == f.stat
  {
    var at := HeaderLies(f, dotu, s);
    var fs := Layout(f, dotu);
    TakeNum(at, s, 7, fs, 0, 4, f.fid);
    TakeBlob(at, s, 11, fs, 1, 2, f.stat);
    End(at, s, 13 + t, fs);
  }

  /** Rflush, Rclunk, Rremove, Rwstat: nothing */
  lemma EmptyLies(f: Fcall, dotu: bool, s: bytes)
    requires s == Wire(f, dotu) && f.typ in [RFLUSH, RCLUNK, RREMOVE, RWSTAT]
    ensures |s| == 7
  {
    var at := HeaderLies(f, dotu, s);
    var fs := Layout(f, dotu);
    End(at, s, 7, fs);
  }

  /** Twalk: fid[4] newfid[4] nwname[2] nwname*(wname[s]) */
  lemma TwalkLies(f: Fcall, dotu: bool, s: bytes)
    requires s == Wire(f, dotu) && f.typ == TWALK
    ensures |s| == 17 + |EncNames(f.wname)|
    ensures s[7..11] == LE(f.fid, 4) && s[11..15] == LE(f.newfid, 4)
    ensures s[15..17] == LE(|f.wname|, 2) && s[17..] == EncNames(f.wname)
  {
    var at := HeaderLies(f, dotu, s);
    var fs := Layout(f, dotu);
    TakeNum(at, s, 7, fs, 0, 4, f.fid);
    TakeNum(at, s, 11, fs, 1, 4, f.newfid);
    TakeCounted(at, s, 15, fs, 2, LE(|f.wname|, 2), 17, EncNames(f.wname), 17 + |EncNames(f.wname)|);
    End(at, s, 17 + |EncNames(f.wname)|, fs);
    assert s[17..] == s[17..|s|];
  }

  lemma OneQidLies(s: bytes, e: bytes, qids: seq<Qid>, k: nat, p: nat)
    requires |s| == 9 + |e| && s[9..|s|] == e && e == EncQids(qids) && k < |qids| && p == 13 * k
    ensures QidLies(s, 9 + p, qids[k])
  {
    QidLiesAt(qids, k);
    SubSlice(s, 9, |s|, p, p + 13);
    QidBytes(s, 9 + p, qids[k]);
  }

  /** Rwalk: nwqid[2] nwqid*(wqid[13]) */
  lemma RwalkLies(f: Fcall, dotu: bool, s: bytes)
    requires s == Wire(f, dotu) && f.typ == RWALK
    ensures |s| == 9 + 13 * |f.wqid| && s[7..9] == LE(|f.wqid|, 2) && s[9..|s|] == EncQids(f.wqid)
  {
    var at := HeaderLies(f, dotu, s);
    var fs := Layout(f, dotu);
    TakeCounted(at, s, 7, fs, 0, LE(|f.wqid|, 2), 9, EncQids(f.wqid), 9 + 13 * |f.wqid|);
    End(at, s, 9 + 13 * |f.wqid|, fs);
  }

  lemma RwalkQidLies(f: Fcall, dotu: bool, s: bytes, k: nat)
    requires s == Wire(f, dotu) && f.typ == RWALK && k < |f.wqid|
    ensures QidLies(s, 9 + 13 * k, f.wqid[k])
  {
    RwalkLies(f, dotu, s);
    OneQidLies(s, EncQids(f.wqid), f.wqid, k, 13 * k);
  }
}
