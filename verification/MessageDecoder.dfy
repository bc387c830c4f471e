/** convM2S of kext/fcall.c. */
module MessageDecoder {
  import opened Codec
  import opened Messages
  import opened MessageReader

  predicate Shaped(f: Fcall) { Known(f.typ) && |f.wname| < 0x1_0000 && |f.wqid| < 0x1_0000 && |f.stat| < 0x1_0000 }

  /** The reader is at the fields of a message of f's type; if live, they are those of want. */
  ghost predicate Before(r: Reader, f: Fcall, want: Fcall, dotu: bool)
    reads r, r.buf
  {
    && r.Valid() && r.done == [] && Shaped(f)
    && (r.live ==> want.typ == f.typ && r.todo == Layout(want, dotu))
  }

  /** The reader has been through all fields of g; if live, they are those of want. */
  ghost predicate After(r: Reader, f: Fcall, g: Fcall, want: Fcall, dotu: bool)
    reads r, r.buf
  {
    && r.Valid() && g.typ == f.typ && g.tag == f.tag && WellFormed(g)
    && r.done == Layout(g, dotu)
    && (r.live ==> Layout(g, dotu) == Layout(want, dotu))
  }

  method Version(r: Reader, f: Fcall, dotu: bool, ghost want: Fcall) returns (res: Result<Fcall>)
    requires Before(r, f, want, dotu) && f.typ in [TVERSION, RVERSION]
    modifies r, r.buf
    ensures res.Ok? ==> After(r, f, res.value, want, dotu)
    ensures res.Err? ==> !r.live
  {
    var msize :- r.U32();
    var version :- r.String();
    return Ok(f.(msize := msize, version := version));
  }

  /** The fields of Tauth that both dialects have; the same of the two below. */
  method AuthFixed(r: Reader, f: Fcall, dotu: bool, ghost want: Fcall) returns (res: Result<Fcall>)
    requires Before(r, f, want, dotu) && f.typ == TAUTH
    modifies r, r.buf
    ensures res.Ok? ==> r.Valid() && Shaped(res.value) && res.value.typ == f.typ && res.value.tag == f.tag
    ensures res.Ok? ==> r.done == AuthFields(res.value)
    ensures res.Ok? && r.live ==> r.done == AuthFields(want) && r.todo == When(dotu, Num(4, want.unamenum))
    ensures res.Err? ==> !r.live
  {
    var afid :- r.U32();
    var uname :- r.String();
    var aname :- r.String();
    var g := f.(afid := afid, uname := uname, aname := aname);
    assert r.done == AuthFields(g);
    return Ok(g);
  }

  method Auth(r: Reader, f: Fcall, dotu: bool, ghost want: Fcall) returns (res: Result<Fcall>)
    requires Before(r, f, want, dotu) && f.typ == TAUTH
    modifies r, r.buf
    ensures res.Ok? ==> After(r, f, res.value, want, dotu)
    ensures res.Err? ==> !r.live
  {
    var g :- AuthFixed(r, f, dotu, want);
    if dotu {
      var unamenum :- r.U32();
      g := g.(unamenum := unamenum);
    }
    return Ok(g);
  }

  method AttachFixed(r: Reader, f: Fcall, dotu: bool, ghost want: Fcall) returns (res: Result<Fcall>)
    requires Before(r, f, want, dotu) && f.typ == TATTACH
    modifies r, r.buf
    ensures res.Ok? ==> r.Valid() && Shaped(res.value) && res.value.typ == f.typ && res.value.tag == f.tag
    ensures res.Ok? ==> r.done == AttachFields(res.value)
    ensures res.Ok? && r.live ==> r.done == AttachFields(want) && r.todo == When(dotu, Num(4, want.unamenum))
    ensures res.Err? ==> !r.live
  {
    var fid :- r.U32();
    var afid :- r.U32();
    var uname :- r.String();
    var aname :- r.String();
    var g := f.(fid := fid, afid := afid, uname := uname, aname := aname);
    assert r.done == AttachFields(g);
    return Ok(g);
  }

  method Attach(r: Reader, f: Fcall, dotu: bool, ghost want: Fcall) returns (res: Result<Fcall>)
    requires Before(r, f, want, dotu) && f.typ == TATTACH
    modifies r, r.buf
    ensures res.Ok? ==> After(r, f, res.value, want, dotu)
    ensures res.Err? ==> !r.live
  {
    var g :- AttachFixed(r, f, dotu, want);
    if dotu {
      var unamenum :- r.U32();
      g := g.(unamenum := unamenum);
    }
    return Ok(g);
  }

  method Walk(r: Reader, f: Fcall, dotu: bool, ghost want: Fcall) returns (res: Result<Fcall>)
    requires Before(r, f, want, dotu) && f.typ == TWALK
    modifies r, r.buf
    ensures res.Ok? ==> After(r, f, res.value, want, dotu)
    ensures res.Err? ==> !r.live
  {
    var fid :- r.U32();
    var newfid :- r.U32();
    var wname :- r.NameList();
    return Ok(f.(fid := fid, newfid := newfid, wname := wname));
  }

  method CreateFixed(r: Reader, f: Fcall, dotu: bool, ghost want: Fcall) returns (res: Result<Fcall>)
    requires Before(r, f, want, dotu) && f.typ == TCREATE
    modifies r, r.buf
    ensures res.Ok? ==> r.Valid() && Shaped(res.value) && res.value.typ == f.typ && res.value.tag == f.tag
    ensures res.Ok? ==> r.done == CreateFields(res.value)
    ensures res.Ok? && r.live ==> r.done == CreateFields(want) && r.todo == When(dotu, Text(want.ext))
    ensures res.Err? ==> !r.live
  {
    var fid :- r.U32();
    var name :- r.String();
    var perm :- r.U32();
    var mode :- r.U8();
    var g := f.(fid := fid, name := name, perm := perm, mode := mode);
    assert r.done == CreateFields(g);
    return Ok(g);
  }

  method Create(r: Reader, f: Fcall, dotu: bool, ghost want: Fcall) returns (res: Result<Fcall>)
    requires Before(r, f, want, dotu) && f.typ == TCREATE
    modifies r, r.buf
    ensures res.Ok? ==> After(r, f, res.value, want, dotu)
    ensures res.Err? ==> !r.live
  {
    var g :- CreateFixed(r, f, dotu, want);
    if dotu {
      var ext :- r.String();
      g := g.(ext := ext);
    }
    return Ok(g);
  }

  /** Tread and Twrite. */
  method Transfer(r: Reader, f: Fcall, dotu: bool, ghost want: Fcall) returns (res: Result<Fcall>)
    requires Before(r, f, want, dotu) && f.typ in [TREAD, TWRITE]
    modifies r, r.buf
    ensures res.Ok? ==> After(r, f, res.value, want, dotu)
    ensures res.Err? ==> !r.live
  {
    Powers();
    var fid :- r.U32();
    var offset :- r.U64();
    var g := f.(fid := fid, offset := offset);
    if f.typ == TREAD {
      var count :- r.U32();
      return Ok(g.(count := count));
    } else {
      var data :- r.Data(4);
      return Ok(g.(count := |data|, data := data));
    }
  }

  /** The other requests. */
  method Request(r: Reader, f: Fcall, dotu: bool, ghost want: Fcall) returns (res: Result<Fcall>)
    requires Before(r, f, want, dotu) && f.typ in [TFLUSH, TOPEN, TCLUNK, TREMOVE, TSTAT, TWSTAT]
    modifies r, r.buf
    ensures res.Ok? ==> After(r, f, res.value, want, dotu)
    ensures res.Err? ==> !r.live
  {
    if f.typ == TFLUSH {
      var oldtag :- r.U16();
      return Ok(f.(oldtag := oldtag));
    }
    var fid :- r.U32();
    var g := f.(fid := fid);
    if f.typ == TOPEN {
      var mode :- r.U8();
      g := g.(mode := mode);
    } else if f.typ == TWSTAT {
      Powers();
      var stat :- r.Data(2);
      g := g.(stat := stat);
    }
    return Ok(g);
  }

  /** The replies that carry a qid. */
  method QidReply(r: Reader, f: Fcall, dotu: bool, ghost want: Fcall) returns (res: Result<Fcall>)
    requires Before(r, f, want, dotu) && f.typ in [RAUTH, RATTACH, RWALK, ROPEN, RCREATE]
    modifies r, r.buf
    ensures res.Ok? ==> After(r, f, res.value, want, dotu)
    ensures res.Err? ==> !r.live
  {
    if f.typ == RWALK {
      var wqid :- r.QidList();
      return Ok(f.(wqid := wqid));
    }
    var qid :- r.OneQid();
    if f.typ == RAUTH { return Ok(f.(aqid := qid)); }
    var g := f.(qid := qid);
    if f.typ != RATTACH {
      var iounit :- r.U32();
      g := g.(iounit := iounit);
    }
    return Ok(g);
  }

  /** The other replies. */
  method Reply(r: Reader, f: Fcall, dotu: bool, ghost want: Fcall) returns (res: Result<Fcall>)
    requires Before(r, f, want, dotu) && f.typ in [RERROR, RFLUSH, RREAD, RWRITE, RCLUNK, RREMOVE, RSTAT, RWSTAT]
    modifies r, r.buf
    ensures res.Ok? ==> After(r, f, res.value, want, dotu)
    ensures res.Err? ==> !r.live
  {
    Powers();
    var g := f;
    if f.typ == RERROR {
      var ename :- r.String();
      g := g.(ename := ename);
      if dotu {
        var errnum :- r.U32();
        g := g.(errnum := errnum);
      }
    } else if f.typ == RREAD {
      var data :- r.Data(4);
      g := g.(count := |data|, data := data);
    } else if f.typ == RWRITE {
      var count :- r.U32();
      g := g.(count := count);
    } else if f.typ == RSTAT {
      var stat :- r.Data(2);
      g := g.(stat := stat);
    }
    return Ok(g);
  }

  /** The switch over the message type. */
  method Body(r: Reader, f: Fcall, dotu: bool, ghost want: Fcall) returns (res: Result<Fcall>)
    requires Before(r, f, want, dotu)
    modifies r, r.buf
    ensures res.Ok? ==> After(r, f, res.value, want, dotu)
    ensures res.Err? ==> !r.live
  {
    match f.typ
    case TVERSION | RVERSION => res := Version(r, f, dotu, want);
    case TAUTH => res := Auth(r, f, dotu, want);
    case TATTACH => res := Attach(r, f, dotu, want);
    case TWALK => res := Walk(r, f, dotu, want);
    case TCREATE => res := Create(r, f, dotu, want);
    case TREAD | TWRITE => res := Transfer(r, f, dotu, want);
    case TFLUSH | TOPEN | TCLUNK | TREMOVE | TSTAT | TWSTAT => res := Request(r, f, dotu, want);
    case RAUTH | RATTACH | RWALK | ROPEN | RCREATE => res := QidReply(r, f, dotu, want);
    case _ => res := Reply(r, f, dotu, want);
  }

  // ----- the header -----

  ghost predicate Carries(s: bytes, m: Fcall, dotu: bool) { Encodable(m, dotu) && Wire(m, dotu) <= s }

  lemma HeaderAhead(s: bytes, m: Fcall, dotu: bool)
    requires Carries(s, m, dotu)
    ensures |s| >= HEADERSZ && FromLE(s[..4]) == WireSize(m, dotu) <= |s|
    ensures FromLE(s[4..5]) == m.typ && FromLE(s[5..7]) == m.tag && Encs(Layout(m, dotu)) <= s[7..]
  {
    Powers();
    var n := WireSize(m, dotu);
    LERead(n, 4);
    LERead(m.typ, 1);
    LERead(m.tag, 2);
    SmallMod(n, Pow256(4));
    SmallMod(m.typ, Pow256(1));
    SmallMod(m.tag, Pow256(2));
    var w := Wire(m, dotu);
    assert s[..4] == w[..4] == LE(n, 4) && s[4..5] == w[4..5] == LE(m.typ, 1) && s[5..7] == w[5..7] == LE(m.tag, 2);
    assert w[7..] == Encs(Layout(m, dotu)) && w[7..] <= s[7..];
  }

  lemma HeaderRead(s: bytes, p: nat, size: nat, f: Fcall, dotu: bool)
    requires HEADERSZ <= p <= |s| && size == FromLE(s[..4]) == p && f.typ == FromLE(s[4..5]) && f.tag == FromLE(s[5..7])
    requires s[7..p] == Encs(Layout(f, dotu))
    ensures Wire(f, dotu) == s[..p] && WireSize(f, dotu) == p < 0x1_0000_0000
  {
    Powers();
    FromLEBound(s[..4]);
    LEWrite(s[..4]);
    LEWrite(s[4..5]);
    LEWrite(s[5..7]);
    assert s[..p] == s[..4] + s[4..5] + s[5..7] + s[7..p];
  }

  method ReadHeader(ap: array<byte>, nap: nat) returns (ok: bool, size: u32, typ: u8, tag: u16)
    requires nap <= ap.Length
    ensures ok <==> HEADERSZ <= nap && HEADERSZ <= FromLE(ap[..4]) <= nap
    ensures ok ==> size == FromLE(ap[..4]) && typ == FromLE(ap[4..5]) && tag == FromLE(ap[5..7])
  {
    if HEADERSZ > nap { return false, 0, 0, 0; }
    Powers();
    size := Gbit(ap, 0, 4);
    assert ap[0..4] == ap[..4];
    typ := Gbit(ap, 4, 1);
    tag := Gbit(ap, 5, 2);
    ok := HEADERSZ <= size <= nap;
  }

  /** The end of convM2S: all fields have been read, up to p; the message is right if that is size bytes. */
  lemma Finished(s: bytes, buf: bytes, nap: nat, n: Snapshot, f: Fcall, size: nat, dotu: bool)
    requires Faithful(n) && n.buf == buf && n.orig == s && n.start == HEADERSZ && n.ep == nap <= |s| &&
      n.done == Layout(f, dotu)
    requires size == FromLE(s[..4]) == n.p && f.typ == FromLE(s[4..5]) && f.tag == FromLE(s[5..7])
    requires Known(f.typ) && WellFormed(f)
    ensures Carries(s[..nap], f, dotu) && size == WireSize(f, dotu) <= nap
    ensures buf[size..] == s[size..]
    ensures AllLead(buf, size, Trail(n.trail.pointers, Targets(Layout(f, dotu))))
  {
    HeaderRead(s, size, size, f, dotu);
    assert s[..size] <= s[..nap];
  }

  /** The message that the first nap bytes of the buffer start with, if any, whatever follows it. On
      success every string and data pointer, in wire order, leads to its bytes inside the message,
      strings to terminated ones, and nothing past the message has changed. */
  method ConvM2S(ap: array<byte>, nap: nat, f0: Fcall, dotu: bool)
      returns (size: nat, f: Fcall, ghost pointers: seq<nat>)
    requires nap <= ap.Length && |f0.wname| < 0x1_0000 && |f0.wqid| < 0x1_0000 && |f0.stat| < 0x1_0000
    modifies ap
    ensures size == 0 <==> !exists m :: Carries(old(ap[..nap]), m, dotu)
    ensures size != 0 ==> Carries(old(ap[..nap]), f, dotu) && size == WireSize(f, dotu) <= nap
    ensures size != 0 ==> ap[..][size..] == old(ap[..])[size..]
    ensures size != 0 ==> AllLead(ap[..], size, Trail(pointers, Targets(Layout(f, dotu))))
  {
    ghost var s := ap[..];
    ghost var live, want := Sought(s, nap, f0, dotu);
    assert ap[..nap] == s[..nap] && (nap >= 7 ==> ap[..4] == s[..4] && ap[4..5] == s[4..5] && ap[5..7] == s[5..7]);
    var ok, size', typ, tag := ReadHeader(ap, nap);
    if !ok || !Known(typ) { return 0, f0, []; }
    f := f0.(typ := typ, tag := tag);
    ghost var todo := if live then Layout(want, dotu) else [];
    assert ap[HEADERSZ..nap] == s[HEADERSZ..nap];
    var r := new Reader(ap, nap, HEADERSZ, live, todo);
    var res := Body(r, f, dotu, want);
    if res.Err? { return 0, f, []; }
    f := res.value;
    assert Faithful(r.Now());
    if size' == r.p {
      Finished(s, ap[..], nap, r.Now(), f, size', dotu);
      return size', f, r.trail.pointers;
    }
    return 0, f, [];
  }

  /** Some message the buffer starts with, if there is one. */
  lemma Sought(s: bytes, nap: nat, f0: Fcall, dotu: bool) returns (live: bool, want: Fcall)
    requires nap <= |s|
    ensures live <==> exists m :: Carries(s[..nap], m, dotu)
    ensures live ==> Encodable(want, dotu) && HEADERSZ <= nap && FromLE(s[..4]) == WireSize(want, dotu) <= nap
    ensures live ==>
      FromLE(s[4..5]) == want.typ && FromLE(s[5..7]) == want.tag && Encs(Layout(want, dotu)) <= s[HEADERSZ..nap]
  {
    live := exists m :: Carries(s[..nap], m, dotu);
    want := f0;
    if live {
      want :| Carries(s[..nap], want, dotu);
      HeaderAhead(s[..nap], want, dotu);
      assert s[..nap][..4] == s[..4] && s[..nap][4..5] == s[4..5] && s[..nap][5..7] == s[5..7];
    }
  }
}
