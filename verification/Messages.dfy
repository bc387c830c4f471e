/** The 27 message types of 9P2000 and 9P2000.u: what kext/fcall.c puts on the wire for each of them. */
module Messages {
  import opened Codec
  import opened Sequences

  // Message numbers of kext/fcall.h.
  const TVERSION := 100
  const RVERSION := 101
  const TAUTH := 102
  const RAUTH := 103
  const TATTACH := 104
  const RATTACH := 105
  const RERROR := 107
  const TFLUSH := 108
  const RFLUSH := 109
  const TWALK := 110
  const RWALK := 111
  const TOPEN := 112
  const ROPEN := 113
  const TCREATE := 114
  const RCREATE := 115
  const TREAD := 116
  const RREAD := 117
  const TWRITE := 118
  const RWRITE := 119
  const TCLUNK := 120
  const RCLUNK := 121
  const TREMOVE := 122
  const RREMOVE := 123
  const TSTAT := 124
  const RSTAT := 125
  const TWSTAT := 126
  const RWSTAT := 127

  const HEADERSZ := 7

  /** struct Fcall. The counts nwname, nwqid and nstat are the lengths of wname, wqid and stat. */
  datatype Fcall = Fcall(
    typ: u8, tag: u16, fid: u32, msize: u32, version: bytes, oldtag: u32, ename: bytes, qid: Qid, iounit: u32,
    uname: bytes, aname: bytes, perm: u32, name: bytes, mode: u8, newfid: u32, wname: seq<bytes>, wqid: seq<Qid>,
    offset: u64, count: u32, data: bytes, stat: bytes, afid: u32, aqid: Qid, errnum: u32, ext: bytes, unamenum: u32)

  /** count is the number of bytes at data where a message carries any; the other counts are ushort. */
  predicate WellFormed(f: Fcall) {
    && (f.typ in [TWRITE, RREAD] ==> f.count == |f.data|)
    && |f.wname| < 0x1_0000 && |f.wqid| < 0x1_0000 && |f.stat| < 0x1_0000
  }

  predicate Known(typ: u8) { TVERSION <= typ <= RWSTAT && typ != 106 }

  function When(c: bool, f: Field): seq<Field> { if c then [f] else [] }

  // The fields that both dialects have, of messages to which one of them adds a field.
  function AuthFields(f: Fcall): seq<Field> { [Num(4, f.afid), Text(f.uname), Text(f.aname)] }
  function AttachFields(f: Fcall): seq<Field> { [Num(4, f.fid), Num(4, f.afid), Text(f.uname), Text(f.aname)] }
  function CreateFields(f: Fcall): seq<Field> { [Num(4, f.fid), Text(f.name), Num(4, f.perm), Num(1, f.mode)] }

  /** The fields of each message in wire order (sections version to stat of the manual); the dialect adds
      a trailing field to four of them. */
  function Layout(f: Fcall, dotu: bool): seq<Field> {
    if f.typ == TVERSION || f.typ == RVERSION then [Num(4, f.msize), Text(f.version)]
    else if f.typ == TAUTH then AuthFields(f) + When(dotu, Num(4, f.unamenum))
    else if f.typ == RAUTH then [One(f.aqid)]
    else if f.typ == TATTACH then AttachFields(f) + When(dotu, Num(4, f.unamenum))
    else if f.typ == RATTACH then [One(f.qid)]
    else if f.typ == RERROR then [Text(f.ename)] + When(dotu, Num(4, f.errnum))
    else if f.typ == TFLUSH then [Num(2, f.oldtag)]
    else if f.typ == TWALK then [Num(4, f.fid), Num(4, f.newfid), Names(f.wname)]
    else if f.typ == RWALK then [Qids(f.wqid)]
    else if f.typ == TOPEN then [Num(4, f.fid), Num(1, f.mode)]
    else if f.typ == ROPEN || f.typ == RCREATE then [One(f.qid), Num(4, f.iounit)]
    else if f.typ == TCREATE then CreateFields(f) + When(dotu, Text(f.ext))
    else if f.typ == TREAD then [Num(4, f.fid), Num(8, f.offset), Num(4, f.count)]
    else if f.typ == RREAD then [Blob(4, f.data)]
    else if f.typ == TWRITE then [Num(4, f.fid), Num(8, f.offset), Blob(4, f.data)]
    else if f.typ == RWRITE then [Num(4, f.count)]
    else if f.typ == TCLUNK || f.typ == TREMOVE || f.typ == TSTAT then [Num(4, f.fid)]
    else if f.typ == RSTAT then [Blob(2, f.stat)]
    else if f.typ == TWSTAT then [Num(4, f.fid), Blob(2, f.stat)]
    else []
  }

  function Header(size: nat, typ: u8, tag: u16): (r: bytes)
    ensures |r| == HEADERSZ
  {
    LE(size, 4) + LE(typ, 1) + LE(tag, 2)
  }

  function WireSize(f: Fcall, dotu: bool): nat { HEADERSZ + |Encs(Layout(f, dotu))| }

  /** size[4] type[1] tag[2], then the fields. */
  function Wire(f: Fcall, dotu: bool): (r: bytes)
    ensures |r| == WireSize(f, dotu)
  {
    Header(WireSize(f, dotu), f.typ, f.tag) + Encs(Layout(f, dotu))
  }

  /** Nothing a message carries is cut short by its encoding: strings below 65536 bytes, at most sixteen
      names or qids, a flushed tag of sixteen bits, a size of thirty-two. */
  predicate Encodable(f: Fcall, dotu: bool) {
    Known(f.typ) && WellFormed(f) && AllFit(Layout(f, dotu)) && WireSize(f, dotu) < 0x1_0000_0000
  }

  /** The same message: the fields that its type does not carry play no part. */
  predicate SameMessage(f: Fcall, g: Fcall, dotu: bool) {
    f.typ == g.typ && f.tag == g.tag && Layout(f, dotu) == Layout(g, dotu)
  }

  // ----- laws of the format -----

  lemma KindsTail(fs: seq<Field>, gs: seq<Field>, dotu: bool, x: Field, y: Field)
    requires SameKinds(fs, gs) && SameKind(x, y)
    ensures SameKinds(fs + When(dotu, x), gs + When(dotu, y))
  {}

  predicate HasTail(typ: u8) { typ in [TAUTH, TATTACH, RERROR, TCREATE] }

  lemma KindsFixed(f: Fcall, g: Fcall, dotu: bool)
    requires f.typ == g.typ && !HasTail(f.typ)
    ensures SameKinds(Layout(f, dotu), Layout(g, dotu))
  {}

  lemma KindsByType(f: Fcall, g: Fcall, dotu: bool)
    requires f.typ == g.typ
    ensures SameKinds(Layout(f, dotu), Layout(g, dotu))
  {
    if !HasTail(f.typ) { KindsFixed(f, g, dotu); }
    else if f.typ == TAUTH {
      KindsTail(AuthFields(f), AuthFields(g), dotu, Num(4, f.unamenum), Num(4, g.unamenum));
    } else if f.typ == TATTACH {
      KindsTail(AttachFields(f), AttachFields(g), dotu, Num(4, f.unamenum), Num(4, g.unamenum));
    } else if f.typ == TCREATE {
      KindsTail(CreateFields(f), CreateFields(g), dotu, Text(f.ext), Text(g.ext));
    } else {
      KindsTail([Text(f.ename)], [Text(g.ename)], dotu, Num(4, f.errnum), Num(4, g.errnum));
    }
  }

  lemma HeaderUnique(m: nat, f: Fcall, n: nat, g: Fcall, x: bytes, y: bytes)
    requires m < 0x1_0000_0000 && n < 0x1_0000_0000 && Header(m, f.typ, f.tag) + x == Header(n, g.typ, g.tag) + y
    ensures m == n && f.typ == g.typ && f.tag == g.tag && x == y
  {
    Powers();
    Assoc(LE(m, 4) + LE(f.typ, 1), LE(f.tag, 2), x);
    Assoc(LE(m, 4), LE(f.typ, 1), LE(f.tag, 2) + x);
    Assoc(LE(n, 4) + LE(g.typ, 1), LE(g.tag, 2), y);
    Assoc(LE(n, 4), LE(g.typ, 1), LE(g.tag, 2) + y);
    NumberUnique(4, m, n, LE(f.typ, 1) + (LE(f.tag, 2) + x), LE(g.typ, 1) + (LE(g.tag, 2) + y));
    NumberUnique(1, f.typ, g.typ, LE(f.tag, 2) + x, LE(g.tag, 2) + y);
    NumberUnique(2, f.tag, g.tag, x, y);
  }

  /** Where two messages lie at the start of one buffer their headers agree, and so do their fields with what
      follows them. */
  lemma HeadersAgree(m: nat, f: Fcall, n: nat, g: Fcall, a: bytes, b: bytes, s: bytes)
    requires m < 0x1_0000_0000 && n < 0x1_0000_0000
    requires Header(m, f.typ, f.tag) + a <= s && Header(n, g.typ, g.tag) + b <= s
    ensures m == n && f.typ == g.typ && f.tag == g.tag
    ensures a + s[HEADERSZ + |a|..] == b + s[HEADERSZ + |b|..]
  {
    var x, y := s[HEADERSZ + |a|..], s[HEADERSZ + |b|..];
    assert s == Header(m, f.typ, f.tag) + a + x && s == Header(n, g.typ, g.tag) + b + y;
    Assoc(Header(m, f.typ, f.tag), a, x);
    Assoc(Header(n, g.typ, g.tag), b, y);
    HeaderUnique(m, f, n, g, a + x, b + y);
  }

  /** Self-delimiting: no buffer starts with the encodings of two different messages. */
  lemma WireUnique(f: Fcall, g: Fcall, dotu: bool, s: bytes)
    requires Encodable(f, dotu) && Encodable(g, dotu) && Wire(f, dotu) <= s && Wire(g, dotu) <= s
    ensures SameMessage(f, g, dotu) && Wire(f, dotu) == Wire(g, dotu)
  {
    var fs, gs := Layout(f, dotu), Layout(g, dotu);
    HeadersAgree(WireSize(f, dotu), f, WireSize(g, dotu), g, Encs(fs), Encs(gs), s);
    KindsByType(f, g, dotu);
    FieldsUnique(fs, gs, s[HEADERSZ + |Encs(fs)|..], s[HEADERSZ + |Encs(gs)|..]);
  }
}
