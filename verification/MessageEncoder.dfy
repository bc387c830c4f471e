/** sizeS2M and convS2M of kext/fcall.c: a pointer p moves over the send buffer. */
module MessageEncoder {
  import opened Codec
  import opened Messages
  import opened Sequences

  // ----- the PBIT macros -----

  lemma TwoBytes(v: nat, n: nat)
    ensures LE(v, n + 2) == [v % 256, v / 0x100 % 256] + LE(v / 0x1_0000, n)
  {
    assert LE(v, n + 2) == [v % 256] + LE(v / 256, n + 1);
    assert LE(v / 256, n + 1) == [v / 256 % 256] + LE(v / 256 / 256, n);
  }

  lemma FourBytes(v: nat, n: nat)
    ensures LE(v, n + 4) == [v % 256, v / 0x100 % 256, v / 0x1_0000 % 256, v / 0x100_0000 % 256] +
      LE(v / 0x1_0000_0000, n)
  {
    var w := v / 0x1_0000;
    TwoBytes(v, n + 2);
    TwoBytes(w, n);
    assert w / 0x100 == v / 0x100_0000 && w / 0x1_0000 == v / 0x1_0000_0000;
    Assoc([v % 256, v / 0x100 % 256], [w % 256, w / 0x100 % 256], LE(w / 0x1_0000, n));
  }

  lemma LEBytes(v: nat)
    ensures LE(v, 1) == [v % 256]
    ensures LE(v, 2) == [v % 256, v / 0x100 % 256]
    ensures LE(v, 4) == [v % 256, v / 0x100 % 256, v / 0x1_0000 % 256, v / 0x100_0000 % 256]
    ensures LE(v, 8) == LE(v, 4) + LE(v / 0x1_0000_0000, 4)
  {
    TwoBytes(v, 0);
    FourBytes(v, 0);
    FourBytes(v, 4);
  }

  method Pbit8(buf: array<byte>, p: nat, v: nat)
    requires p + 1 <= buf.Length
    modifies buf
    ensures buf[..] == old(buf[..p]) + LE(v, 1) + old(buf[p + 1..])
  {
    LEBytes(v);
    buf[p] := v % 256;
  }

  method Pbit16(buf: array<byte>, p: nat, v: nat)
    requires p + 2 <= buf.Length
    modifies buf
    ensures buf[..] == old(buf[..p]) + LE(v, 2) + old(buf[p + 2..])
  {
    LEBytes(v);
    buf[p] := v % 256;
    buf[p + 1] := v / 0x100 % 256;
  }

  method Pbit32(buf: array<byte>, p: nat, v: nat)
    requires p + 4 <= buf.Length
    modifies buf
    ensures buf[..] == old(buf[..p]) + LE(v, 4) + old(buf[p + 4..])
  {
    LEBytes(v);
    buf[p] := v % 256;
    buf[p + 1] := v / 0x100 % 256;
    buf[p + 2] := v / 0x1_0000 % 256;
    buf[p + 3] := v / 0x100_0000 % 256;
  }

  method Pbit64(buf: array<byte>, p: nat, v: nat)
    requires p + 8 <= buf.Length
    modifies buf
    ensures buf[..] == old(buf[..p]) + LE(v, 8) + old(buf[p + 8..])
  {
    LEBytes(v);
    Pbit32(buf, p, v);
    Pbit32(buf, p + 4, v / 0x1_0000_0000);
  }

  /** memmove(p, s, n) */
  method MoveIn(buf: array<byte>, p: nat, s: bytes)
    requires p + |s| <= buf.Length
    modifies buf
    ensures buf[..] == old(buf[..p]) + s + old(buf[p + |s|..])
  {
    forall i | 0 <= i < |s| { buf[p + i] := s[i]; }
  }

  // ----- sizeS2M -----

  method StringSize(s: bytes) returns (n: nat)
    ensures n == 2 + |s|
  {
    n := 2 + |s|;
  }

  method NamesSize(names: seq<bytes>) returns (n: nat)
    ensures n == |EncNames(names)|
  {
    n := 0;
    for i := 0 to |names|
      invariant n == |EncNames(names[..i])|
    {
      assert names[..i + 1] == names[..i] + [names[i]];
      NamesAppend(names[..i], names[i]);
      n := n + 2 + |names[i]|;
    }
    assert names[..|names|] == names;
  }

  function FieldSize(f: Field): nat {
    match f
    case Num(w, _) => w
    case Text(s) => 2 + |s|
    case Blob(w, s) => w + |s|
    case One(_) => QIDSZ
    case Names(names) => 2 + |EncNames(names)|
    case Qids(qids) => 2 + |qids| * QIDSZ
  }

  function Sizes(fs: seq<Field>): nat {
    if fs == [] then 0 else FieldSize(fs[0]) + Sizes(fs[1..])
  }

  lemma {:induction false} SizesAre(fs: seq<Field>)
    ensures |Encs(fs)| == Sizes(fs)
  {
    if fs != [] { SizesAre(fs[1..]); }
  }

  lemma Sizes1(f: Field)
    ensures Sizes([f]) == FieldSize(f)
  {}

  lemma Sizes2(f: Field, g: Field)
    ensures Sizes([f, g]) == FieldSize(f) + FieldSize(g)
  {
    assert [f, g][1..] == [g];
    Sizes1(g);
  }

  lemma Sizes3(f: Field, g: Field, h: Field)
    ensures Sizes([f, g, h]) == FieldSize(f) + FieldSize(g) + FieldSize(h)
  {
    assert [f, g, h][1..] == [g, h];
    Sizes2(g, h);
  }

  lemma SizesMore(fs: seq<Field>, c: bool, f: Field)
    ensures Sizes(fs + When(c, f)) == Sizes(fs) + if c then FieldSize(f) else 0
  {
    if !c {
      assert fs + [] == fs;
    } else if fs == [] {
      assert [] + [f] == [f];
    } else {
      assert (fs + [f])[1..] == fs[1..] + [f];
      SizesMore(fs[1..], c, f);
    }
  }

  lemma Sizes4(f: Field, g: Field, h: Field, i: Field)
    ensures Sizes([f, g, h, i]) == FieldSize(f) + FieldSize(g) + FieldSize(h) + FieldSize(i)
  {
    assert [f, g, h, i][1..] == [g, h, i];
    Sizes3(g, h, i);
  }

  /** Tversion, Tauth, Tattach and Tcreate. */
  method NamedSize(f: Fcall, dotu: bool) returns (n: nat)
    requires f.typ in [TVERSION, TAUTH, TATTACH, TCREATE]
    ensures n == Sizes(Layout(f, dotu))
  {
    n := 0;
    match f.typ
    case TVERSION =>
      var s := StringSize(f.version);
      n := n + 4 + s;
      Sizes2(Num(4, f.msize), Text(f.version));
    case TAUTH =>
      var s := StringSize(f.uname);
      var t := StringSize(f.aname);
      n := n + 4 + s + t;
      if dotu { n := n + 4; }
      Sizes3(Num(4, f.afid), Text(f.uname), Text(f.aname));
      SizesMore([Num(4, f.afid), Text(f.uname), Text(f.aname)], dotu, Num(4, f.unamenum));
    case TATTACH =>
      var s := StringSize(f.uname);
      var t := StringSize(f.aname);
      n := n + 4 + 4 + s + t;
      if dotu { n := n + 4; }
      Sizes4(Num(4, f.fid), Num(4, f.afid), Text(f.uname), Text(f.aname));
      SizesMore([Num(4, f.fid), Num(4, f.afid), Text(f.uname), Text(f.aname)], dotu, Num(4, f.unamenum));
    case TCREATE =>
      var s := StringSize(f.name);
      n := n + 4 + s + 4 + 1;
      if dotu {
        var t := StringSize(f.ext);
        n := n + t;
      }
      Sizes4(Num(4, f.fid), Text(f.name), Num(4, f.perm), Num(1, f.mode));
      SizesMore([Num(4, f.fid), Text(f.name), Num(4, f.perm), Num(1, f.mode)], dotu, Text(f.ext));
  }

  /** The case arms of the requests. */
  method RequestSize(f: Fcall, dotu: bool) returns (n: nat)
    requires Known(f.typ) && f.typ % 2 == 0
    ensures n == Sizes(Layout(f, dotu))
  {
    n := 0;
    match f.typ
    case TFLUSH =>
      n := n + 2;
      Sizes1(Num(2, f.oldtag));
    case TWALK =>
      var s := NamesSize(f.wname);
      n := n + 4 + 4 + 2 + s;
      Sizes3(Num(4, f.fid), Num(4, f.newfid), Names(f.wname));
    case TOPEN =>
      n := n + 4 + 1;
      Sizes2(Num(4, f.fid), Num(1, f.mode));
    case TREAD =>
      n := n + 4 + 8 + 4;
      Sizes3(Num(4, f.fid), Num(8, f.offset), Num(4, f.count));
    case TWRITE =>
      n := n + 4 + 8 + 4 + |f.data|;
      Sizes3(Num(4, f.fid), Num(8, f.offset), Blob(4, f.data));
    case TCLUNK | TREMOVE | TSTAT =>
      n := n + 4;
      Sizes1(Num(4, f.fid));
    case TWSTAT =>
      n := n + 4 + 2 + |f.stat|;
      Sizes2(Num(4, f.fid), Blob(2, f.stat));
    case _ => n := NamedSize(f, dotu);
  }

  /** The case arms of the replies. */
  method ReplySize(f: Fcall, dotu: bool) returns (n: nat)
    requires Known(f.typ) && f.typ % 2 == 1
    ensures n == Sizes(Layout(f, dotu))
  {
    n := 0;
    match f.typ
    case RERROR =>
      var s := StringSize(f.ename);
      n := n + s;
      if dotu { n := n + 4; }
      Sizes1(Text(f.ename));
      SizesMore([Text(f.ename)], dotu, Num(4, f.errnum));
    case RAUTH =>
      n := n + QIDSZ;
      Sizes1(One(f.aqid));
    case RATTACH =>
      n := n + QIDSZ;
      Sizes1(One(f.qid));
    case RWALK =>
      n := n + 2 + |f.wqid| * QIDSZ;
      Sizes1(Qids(f.wqid));
    case ROPEN | RCREATE =>
      n := n + QIDSZ + 4;
      Sizes2(One(f.qid), Num(4, f.iounit));
    case RREAD =>
      n := n + 4 + |f.data|;
      Sizes1(Blob(4, f.data));
    case RWRITE =>
      n := n + 4;
      Sizes1(Num(4, f.count));
    case RSTAT =>
      n := n + 2 + |f.stat|;
      Sizes1(Blob(2, f.stat));
    case RVERSION =>
      var s := StringSize(f.version);
      n := n + 4 + s;
      Sizes2(Num(4, f.msize), Text(f.version));
    case _ =>
  }

  /** The size of the encoding; 0 for an unknown type. */
  method SizeS2M(f: Fcall, dotu: bool) returns (n: nat)
    ensures n == if Known(f.typ) then WireSize(f, dotu) else 0
  {
    n := 4 + 1 + 2;
    if !Known(f.typ) { return 0; }
    var m: nat;
    if f.typ % 2 == 0 {
      m := RequestSize(f, dotu);
    } else {
      m := ReplySize(f, dotu);
    }
    n := n + m;
    SizesAre(Layout(f, dotu));
  }

  // ----- the moving pointer -----

  /** A buffer in which whole is being written: the first p bytes are there and todo encodes the rest. */
  datatype Draft = Draft(buf: bytes, base: bytes, whole: bytes, p: nat, todo: seq<Field>)

  ghost predicate Underway(d: Draft) {
    && |d.whole| <= |d.buf| == |d.base| && d.p <= |d.whole|
    && d.buf[..d.p] + Encs(d.todo) == d.whole
    && d.buf[|d.whole|..] == d.base[|d.whole|..]
  }

  /** inv is Underway, looked into only where Underway is mentioned. */
  ghost predicate Means(inv: Draft -> bool) {
    forall d {:trigger Underway(d)} :: inv(d) <==> Underway(d)
  }

  lemma Written(d: Draft, e: Draft, x: bytes, f: Field)
    requires Underway(d) && d.todo != [] && d.todo[0] == f && x == Enc(f) && d.p + |x| <= |d.buf|
    requires e == Draft(d.buf[..d.p] + x + d.buf[d.p + |x|..], d.base, d.whole, d.p + |x|, d.todo[1..])
    ensures Underway(e)
  {
    Assoc(d.buf[..d.p], x, Encs(d.todo[1..]));
    assert e.buf[..e.p] == d.buf[..d.p] + x;
    assert e.buf[|d.whole|..] == d.buf[|d.whole|..];
  }

  lemma RoomFor(d: Draft, f: Field)
    requires Underway(d) && d.todo != [] && d.todo[0] == f
    ensures d.p + |Enc(f)| <= |d.whole| <= |d.buf|
  {}

  // ----- fields as the parts they are written in; Blob(0, s) is s without a count -----

  lemma Encs2(f: Field, g: Field)
    ensures Encs([f, g]) == Enc(f) + Enc(g)
  {
    assert [f, g][1..] == [g];
    EncsOne(g);
  }

  lemma TextParts(s: bytes)
    ensures Encs([Num(2, |s|), Blob(0, s)]) == Enc(Text(s))
  {
    Encs2(Num(2, |s|), Blob(0, s));
  }

  lemma BlobParts(w: nat, s: bytes)
    ensures Encs([Num(w, |s|), Blob(0, s)]) == Enc(Blob(w, s))
  {
    Encs2(Num(w, |s|), Blob(0, s));
  }

  lemma QidParts(q: Qid)
    ensures Encs([Num(1, q.typ), Num(4, q.vers), Num(8, q.path)]) == Enc(One(q))
  {
    assert [Num(1, q.typ), Num(4, q.vers), Num(8, q.path)][1..] == [Num(4, q.vers), Num(8, q.path)];
    Encs2(Num(4, q.vers), Num(8, q.path));
    Assoc(LE(q.typ, 1), LE(q.vers, 4), LE(q.path, 8));
  }

  function Texts(names: seq<bytes>): (r: seq<Field>)
    ensures |r| == |names|
  {
    seq(|names|, i requires 0 <= i < |names| => Text(names[i]))
  }

  function Ones(qids: seq<Qid>): (r: seq<Field>)
    ensures |r| == |qids|
  {
    seq(|qids|, i requires 0 <= i < |qids| => One(qids[i]))
  }

  lemma {:induction false} EncTexts(names: seq<bytes>)
    ensures Encs(Texts(names)) == EncNames(names)
  {
    if names != [] {
      assert Texts(names)[1..] == Texts(names[1..]);
      EncTexts(names[1..]);
    }
  }

  lemma {:induction false} EncOnes(qids: seq<Qid>)
    ensures Encs(Ones(qids)) == EncQids(qids)
  {
    if qids != [] {
      assert Ones(qids)[1..] == Ones(qids[1..]);
      EncOnes(qids[1..]);
    }
  }

  lemma NamesParts(names: seq<bytes>)
    ensures Encs([Num(2, |names|)] + Texts(names)) == Enc(Names(names))
  {
    EncTexts(names);
    assert ([Num(2, |names|)] + Texts(names))[1..] == Texts(names);
  }

  lemma QidsParts(qids: seq<Qid>)
    ensures Encs([Num(2, |qids|)] + Ones(qids)) == Enc(Qids(qids))
  {
    EncOnes(qids);
    assert ([Num(2, |qids|)] + Ones(qids))[1..] == Ones(qids);
  }

  /** What is left of a list of parts after the first i. */
  function Left(parts: seq<Field>, rest: seq<Field>, i: nat): seq<Field>
    requires i <= |parts|
  {
    parts[i..] + rest
  }

  lemma LeftOver(parts: seq<Field>, rest: seq<Field>)
    ensures Left(parts, rest, 0) == parts + rest && Left(parts, rest, |parts|) == rest
  {}

  lemma LeftNext(parts: seq<Field>, rest: seq<Field>, i: nat)
    requires i < |parts|
    ensures Left(parts, rest, i) != [] && Left(parts, rest, i)[0] == parts[i]
    ensures Left(parts, rest, i)[1..] == Left(parts, rest, i + 1)
  {}

  lemma CountFirst(n: Field, parts: seq<Field>, rest: seq<Field>)
    ensures ([n] + parts + rest)[0] == n && ([n] + parts + rest)[1..] == parts + rest
  {}

  class Writer {
    const buf: array<byte>
    var p: nat
    ghost const base: bytes
    ghost const whole: bytes
    ghost const inv: Draft -> bool
    ghost var todo: seq<Field>

    ghost function Now(): Draft
      reads this, buf
    {
      Draft(buf[..], base, whole, p, todo)
    }

    ghost predicate Valid()
      reads this, buf
    {
      Means(inv) && inv(Now())
    }

    ghost predicate Next(f: Field)
      reads this, buf
    {
      Valid() && todo != [] && todo[0] == f
    }

    constructor (buf: array<byte>, ghost whole: bytes, ghost todo: seq<Field>)
      requires Encs(todo) == whole && |whole| <= buf.Length
      ensures Valid() && this.buf == buf && base == buf[..] && this.whole == whole && this.todo == todo
    {
      this.buf, this.p := buf, 0;
      this.base, this.whole, this.todo, this.inv := buf[..], whole, todo, d => Underway(d);
      new;
      assert this.buf[..0] + Encs(todo) == whole;
      assert Underway(Now());
    }

    method U8(v: u8)
      requires Next(Num(1, v))
      modifies this`p, this`todo, buf
      ensures Valid() && todo == old(todo)[1..]
    {
      RoomFor(Now(), Num(1, v));
      Pbit8(buf, p, v);
      p := p + 1;
      todo := todo[1..];
      Written(old(Now()), Now(), LE(v, 1), Num(1, v));
    }

    method U16(v: nat)
      requires Next(Num(2, v))
      modifies this`p, this`todo, buf
      ensures Valid() && todo == old(todo)[1..]
    {
      RoomFor(Now(), Num(2, v));
      Pbit16(buf, p, v);
      p := p + 2;
      todo := todo[1..];
      Written(old(Now()), Now(), LE(v, 2), Num(2, v));
    }

    method U32(v: nat)
      requires Next(Num(4, v))
      modifies this`p, this`todo, buf
      ensures Valid() && todo == old(todo)[1..]
    {
      RoomFor(Now(), Num(4, v));
      Pbit32(buf, p, v);
      p := p + 4;
      todo := todo[1..];
      Written(old(Now()), Now(), LE(v, 4), Num(4, v));
    }

    method U64(v: nat)
      requires Next(Num(8, v))
      modifies this`p, this`todo, buf
      ensures Valid() && todo == old(todo)[1..]
    {
      RoomFor(Now(), Num(8, v));
      Pbit64(buf, p, v);
      p := p + 8;
      todo := todo[1..];
      Written(old(Now()), Now(), LE(v, 8), Num(8, v));
    }

    /** The next field, taken apart. */
    ghost method Split(fs: seq<Field>)
      requires Valid() && todo != [] && Encs(fs) == Enc(todo[0])
      modifies this`todo
      ensures Valid() && todo == fs + old(todo)[1..]
    {
      assert Underway(Now());
      EncsAppend(fs, todo[1..]);
      todo := fs + todo[1..];
      assert Underway(Now());
    }

    /** memmove(p, s, n); p += n */
    method Raw(s: bytes)
      requires Next(Blob(0, s))
      modifies this`p, this`todo, buf
      ensures Valid() && todo == old(todo)[1..]
    {
      RoomFor(Now(), Blob(0, s));
      assert Enc(Blob(0, s)) == s;
      MoveIn(buf, p, s);
      p := p + |s|;
      todo := todo[1..];
      Written(old(Now()), Now(), s, Blob(0, s));
    }

    /** pstring */
    method String(s: bytes)
      requires Next(Text(s))
      modifies this`p, this`todo, buf
      ensures Valid() && todo == old(todo)[1..]
    {
      TextParts(s);
      Split([Num(2, |s|), Blob(0, s)]);
      U16(|s|);
      Raw(s);
    }

    method Data(w: nat, s: bytes)
      requires Next(Blob(w, s)) && (w == 2 || w == 4)
      modifies this`p, this`todo, buf
      ensures Valid() && todo == old(todo)[1..]
    {
      BlobParts(w, s);
      Split([Num(w, |s|), Blob(0, s)]);
      if w == 2 { U16(|s|); } else { U32(|s|); }
      Raw(s);
    }

    /** pqid */
    method OneQid(q: Qid)
      requires Next(One(q))
      modifies this`p, this`todo, buf
      ensures Valid() && todo == old(todo)[1..]
    {
      QidParts(q);
      Split([Num(1, q.typ), Num(4, q.vers), Num(8, q.path)]);
      U8(q.typ);
      U32(q.vers);
      U64(q.path);
    }

    method Strings(names: seq<bytes>, ghost rest: seq<Field>)
      requires Valid() && todo == Texts(names) + rest
      modifies this`p, this`todo, buf
      ensures Valid() && todo == rest
    {
      LeftOver(Texts(names), rest);
      for i := 0 to |names|
        invariant Valid() && todo == Left(Texts(names), rest, i)
      {
        LeftNext(Texts(names), rest, i);
        String(names[i]);
      }
    }

    method AllQids(qids: seq<Qid>, ghost rest: seq<Field>)
      requires Valid() && todo == Ones(qids) + rest
      modifies this`p, this`todo, buf
      ensures Valid() && todo == rest
    {
      LeftOver(Ones(qids), rest);
      for i := 0 to |qids|
        invariant Valid() && todo == Left(Ones(qids), rest, i)
      {
        LeftNext(Ones(qids), rest, i);
        OneQid(qids[i]);
      }
    }

    /** The count, and then the names unless there are too many. */
    method NameList(names: seq<bytes>) returns (ok: bool)
      requires Next(Names(names))
      modifies this`p, this`todo, buf
      ensures Valid() && ok == (|names| <= MAXWELEM)
      ensures ok ==> todo == old(todo)[1..]
    {
      NamesParts(names);
      CountFirst(Num(2, |names|), Texts(names), todo[1..]);
      Split([Num(2, |names|)] + Texts(names));
      U16(|names|);
      if |names| > MAXWELEM { return false; }
      Strings(names, old(todo)[1..]);
      return true;
    }

    method QidList(qids: seq<Qid>) returns (ok: bool)
      requires Next(Qids(qids))
      modifies this`p, this`todo, buf
      ensures Valid() && ok == (|qids| <= MAXWELEM)
      ensures ok ==> todo == old(todo)[1..]
    {
      QidsParts(qids);
      CountFirst(Num(2, |qids|), Ones(qids), todo[1..]);
      Split([Num(2, |qids|)] + Ones(qids));
      U16(|qids|);
      if |qids| > MAXWELEM { return false; }
      AllQids(qids, old(todo)[1..]);
      return true;
    }
  }

  // ----- convS2M -----

  /** The arms of Tversion, Tauth, Tattach, Tcreate and Rversion, Rerror. */
  method NamedBody(w: Writer, f: Fcall, dotu: bool)
    requires w.Valid() && w.todo == Layout(f, dotu)
    requires f.typ in [TVERSION, RVERSION, TAUTH, TATTACH, TCREATE, RERROR]
    modifies w, w.buf
    ensures w.Valid() && w.todo == []
  {
    match f.typ
    case TVERSION | RVERSION =>
      w.U32(f.msize);
      w.String(f.version);
    case TAUTH =>
      w.U32(f.afid);
      w.String(f.uname);
      w.String(f.aname);
      if dotu { w.U32(f.unamenum); }
    case TATTACH =>
      w.U32(f.fid);
      w.U32(f.afid);
      w.String(f.uname);
      w.String(f.aname);
      if dotu { w.U32(f.unamenum); }
    case TCREATE =>
      w.U32(f.fid);
      w.String(f.name);
      w.U32(f.perm);
      w.U8(f.mode);
      if dotu { w.String(f.ext); }
    case RERROR =>
      w.String(f.ename);
      if dotu { w.U32(f.errnum); }
  }

  /** The arms of the other requests. */
  method RequestBody(w: Writer, f: Fcall, dotu: bool) returns (ok: bool)
    requires w.Valid() && w.todo == Layout(f, dotu)
    requires f.typ in [TFLUSH, TWALK, TOPEN, TREAD, TWRITE, TCLUNK, TREMOVE, TSTAT, TWSTAT]
    modifies w, w.buf
    ensures w.Valid() && (ok ==> w.todo == [])
    ensures !ok <==> f.typ == TWALK && |f.wname| > MAXWELEM
  {
    ok := true;
    if f.typ == TFLUSH {
      w.U16(f.oldtag);
      return;
    }
    w.U32(f.fid);
    match f.typ
    case TWALK =>
      w.U32(f.newfid);
      ok := w.NameList(f.wname);
    case TOPEN =>
      w.U8(f.mode);
    case TREAD =>
      w.U64(f.offset);
      w.U32(f.count);
    case TWRITE =>
      w.U64(f.offset);
      w.Data(4, f.data);
    case TWSTAT =>
      w.Data(2, f.stat);
    case _ =>
  }

  /** The arms of the other replies. */
  method ReplyBody(w: Writer, f: Fcall, dotu: bool) returns (ok: bool)
    requires w.Valid() && w.todo == Layout(f, dotu)
    requires Known(f.typ) && f.typ % 2 == 1 && f.typ !in [RVERSION, RERROR]
    modifies w, w.buf
    ensures w.Valid() && (ok ==> w.todo == [])
    ensures !ok <==> f.typ == RWALK && |f.wqid| > MAXWELEM
  {
    ok := true;
    match f.typ
    case RAUTH =>
      w.OneQid(f.aqid);
    case RATTACH =>
      w.OneQid(f.qid);
    case RWALK =>
      ok := w.QidList(f.wqid);
    case ROPEN | RCREATE =>
      w.OneQid(f.qid);
      w.U32(f.iounit);
    case RREAD =>
      w.Data(4, f.data);
    case RWRITE =>
      w.U32(f.count);
    case RSTAT =>
      w.Data(2, f.stat);
    case _ =>
  }

  /** A walk of more than sixteen names or qids is refused, after part of it has been written. */
  predicate TooLong(f: Fcall) { (f.typ == TWALK && |f.wname| > MAXWELEM) || (f.typ == RWALK && |f.wqid| > MAXWELEM) }

  /** The switch over the message type. */
  method Body(w: Writer, f: Fcall, dotu: bool) returns (ok: bool)
    requires w.Valid() && w.todo == Layout(f, dotu) && Known(f.typ)
    modifies w, w.buf
    ensures w.Valid() && (ok ==> w.todo == [])
    ensures ok <==> !TooLong(f)
  {
    ok := true;
    if f.typ in [TVERSION, RVERSION, TAUTH, TATTACH, TCREATE, RERROR] {
      NamedBody(w, f, dotu);
    } else if f.typ % 2 == 0 {
      ok := RequestBody(w, f, dotu);
    } else {
      ok := ReplyBody(w, f, dotu);
    }
  }

  method PutHeader(w: Writer, f: Fcall, size: nat, ghost fs: seq<Field>)
    requires w.Valid() && w.todo == HeaderOf(f, size) + fs
    modifies w, w.buf
    ensures w.Valid() && w.todo == fs
  {
    w.U32(size);
    w.U8(f.typ);
    w.U16(f.tag);
  }

  lemma Written0(d: Draft)
    requires Underway(d)
    ensures d.buf[|d.whole|..] == d.base[|d.whole|..] && |d.buf| == |d.base|
    ensures d.todo == [] ==> d.p == |d.whole| && d.buf[..d.p] == d.whole
  {}

  lemma WrittenAll(d: Draft, size: nat)
    requires Underway(d) && d.todo == [] && size == |d.whole|
    ensures d.buf == d.whole + d.base[size..]
  {
    Written0(d);
    assert d.buf == d.buf[..size] + d.buf[size..];
  }

  /** Bytes past the encoding are left alone, and all of them if it does not fit. */
  method ConvS2M(f: Fcall, ap: array<byte>, nap: nat, dotu: bool) returns (size: nat)
    requires nap <= ap.Length && WellFormed(f) && WireSize(f, dotu) < 0x1_0000_0000
    modifies ap
    ensures size == if Known(f.typ) && WireSize(f, dotu) <= nap && !TooLong(f) then WireSize(f, dotu) else 0
    ensures size != 0 ==> ap[..][..size] == Wire(f, dotu)
    ensures WireSize(f, dotu) <= ap.Length ==> ap[..][WireSize(f, dotu)..] == old(ap[..])[WireSize(f, dotu)..]
    ensures !Known(f.typ) || WireSize(f, dotu) > nap ==> ap[..] == old(ap[..])
  {
    size := SizeS2M(f, dotu);
    if size == 0 || size > nap { return 0; }
    HeaderFields(f, size, Layout(f, dotu));
    var w := new Writer(ap, Wire(f, dotu), HeaderOf(f, size) + Layout(f, dotu));
    PutHeader(w, f, size, Layout(f, dotu));
    var ok := Body(w, f, dotu);
    Written0(w.Now());
    if !ok || size != w.p { return 0; }
  }

  function HeaderOf(f: Fcall, size: nat): seq<Field> { [Num(4, size), Num(1, f.typ), Num(2, f.tag)] }

  lemma HeaderFields(f: Fcall, size: nat, fs: seq<Field>)
    ensures Encs([Num(4, size), Num(1, f.typ), Num(2, f.tag)] + fs) == Header(size, f.typ, f.tag) + Encs(fs)
  {
    EncsAppend([Num(4, size), Num(1, f.typ), Num(2, f.tag)], fs);
    assert [Num(4, size), Num(1, f.typ), Num(2, f.tag)][1..] == [Num(1, f.typ), Num(2, f.tag)];
    Encs2(Num(1, f.typ), Num(2, f.tag));
    Assoc(LE(size, 4), LE(f.typ, 1), LE(f.tag, 2));
  }
}
