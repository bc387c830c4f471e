/** encodeMessage and decodeHeader of NinePWireCodec.swift, over the writer of NinePDataCodec.swift. */
module SwiftMessage {
  import opened Codec
  import opened MessageEncoder
  import Messages
  import opened Options
  import opened Sequences
  import opened Stat
  import SwiftWire

  /** The raw values of NineP.MsgType. */
  const MSGTYPES: set<u8> := {100, 101, 102, 103, 104, 105, 107, 110, 111, 112, 113, 116, 117, 120, 121, 124, 125}

  const HEADER := 7

  class Writer {
    var data: bytes

    constructor ()
      ensures data == []
    {
      data := [];
    }

    method U8(v: nat)
      requires v < 256
      modifies this
      ensures data == old(data) + LE(v, 1)
    {
      Powers();
      data := data + [v];
    }

    method U16(v: u16)
      modifies this
      ensures data == old(data) + LE(v, 2)
    {
      U8(v % 256);
      U8(v / 256 % 256);
    }

    method U32(v: u32)
      modifies this
      ensures data == old(data) + LE(v, 4)
    {
      U8(v % 256);
      U8(v / 256 % 256);
      U8(v / 0x1_0000 % 256);
      U8(v / 0x100_0000 % 256);
      OctetsOf(v);
    }

    method U64(v: u64)
      modifies this
      ensures data == old(data) + LE(v, 8)
    {
      HalvesOf(v);
      Assoc(data, LE(v % 0x1_0000_0000, 4), LE(v / 0x1_0000_0000, 4));
      var lo, hi := v % 0x1_0000_0000, v / 0x1_0000_0000;
      U32(lo);
      U32(hi);
    }

    method Bytes(d: bytes)
      modifies this
      ensures data == old(data) + d
    {
      data := data + d;
    }
  }

  lemma OneOctet(x: byte)
    ensures LE(x, 1) == [x]
  {}

  lemma FourOctets(v: nat, a: byte, b: byte, c: byte, d: byte)
    requires a == v % 256 && b == v / 256 % 256 && c == v / 0x1_0000 % 256 && d == v / 0x100_0000 % 256
    ensures LE(v, 4) == [a, b, c, d]
  {
    LEBytes(v);
  }

  lemma OctetsOf(v: u32)
    ensures LE(v, 4) == [v % 256, v / 256 % 256, v / 0x1_0000 % 256, v / 0x100_0000 % 256]
    ensures LE(v, 4) == LE(v % 256, 1) + LE(v / 256 % 256, 1) + LE(v / 0x1_0000 % 256, 1) + LE(v / 0x100_0000 % 256, 1)
  {
    var a, b, c, d := v % 256, v / 256 % 256, v / 0x1_0000 % 256, v / 0x100_0000 % 256;
    FourOctets(v, a, b, c, d);
    OneOctet(a);
    OneOctet(b);
    OneOctet(c);
    OneOctet(d);
  }

  lemma HalvesOf(v: u64)
    ensures LE(v, 8) == LE(v % 0x1_0000_0000, 4) + LE(v / 0x1_0000_0000, 4)
  {
    var lo, hi := LE(v % 0x1_0000_0000, 4), LE(v / 0x1_0000_0000, 4);
    Powers();
    JoinLE(lo, hi);
    LERead(v % 0x1_0000_0000, 4);
    LERead(v / 0x1_0000_0000, 4);
    SmallMod(v % 0x1_0000_0000, 0x1_0000_0000);
    SmallMod(v / 0x1_0000_0000, 0x1_0000_0000);
    LEWrite(lo + hi);
  }

  /** size[4] typ[1] tag[2] body, the size counting all of it. */
  function MessageOf(typ: u8, tag: u16, body: bytes): (r: bytes)
    ensures |r| == HEADER + |body|
  {
    LE(HEADER + |body|, 4) + LE(typ, 1) + LE(tag, 2) + body
  }

  /** The size is written as 0 first and patched in place. */
  method EncodeMessage(typ: u8, tag: u16, body: bytes) returns (msg: bytes)
    requires HEADER + |body| < 0x1_0000_0000
    ensures msg == MessageOf(typ, tag, body)
  {
    var w := new Writer();
    w.U32(0);
    w.U8(typ);
    w.U16(tag);
    w.Bytes(body);
    msg := w.data;
    var size := |msg|;
    ghost var rest := LE(typ, 1) + LE(tag, 2) + body;
    assert msg == LE(0, 4) + rest;
    msg := msg[0 := size % 256];
    msg := msg[1 := size / 256 % 256];
    msg := msg[2 := size / 0x1_0000 % 256];
    msg := msg[3 := size / 0x100_0000 % 256];
    OctetsOf(size);
    assert msg == LE(size, 4) + rest;
  }

  method EncodeQid(q: Qid) returns (data: bytes)
    ensures data == EncQid(q)
  {
    var w := new Writer();
    w.U8(q.typ);
    w.U32(q.vers);
    w.U64(q.path);
    data := w.data;
  }

  datatype Header = Header(size: u32, typ: u8, tag: u16, body: bytes) | EBADMSG | EPROTO

  function HeaderOf(msg: bytes): Header {
    if |msg| < 4 || Get32(msg, 0) != |msg| || |msg| < 5 then EBADMSG
    else if Get8(msg, 4) !in MSGTYPES then EPROTO
    else if |msg| < HEADER then EBADMSG
    else Header(|msg|, Get8(msg, 4), Get16(msg, 5), msg[HEADER..])
  }

  method DecodeHeader(msg: bytes) returns (r: Header)
    ensures r == HeaderOf(msg)
  {
    var rd := new SwiftWire.Reader(msg);
    var size := rd.U32();
    if size.None? { return EBADMSG; }
    if size.value != |msg| { return EBADMSG; }
    var typ := rd.U8();
    if typ.None? { return EBADMSG; }
    if typ.value !in MSGTYPES { return EPROTO; }
    var tag := rd.U16();
    if tag.None? { return EBADMSG; }
    r := Header(size.value, typ.value, tag.value, msg[rd.idx..]);
  }

  /** decodeHeader takes exactly the messages that encodeMessage makes for the types it knows, and gives back
      what they were made from. */
  lemma HeaderExactly(msg: bytes, typ: u8, tag: u16, body: bytes)
    requires HEADER + |body| < 0x1_0000_0000
    ensures HeaderOf(msg) == Header(HEADER + |body|, typ, tag, body) <==>
      typ in MSGTYPES && msg == MessageOf(typ, tag, body)
  {
    MessageReads(typ, tag, body);
    if HeaderOf(msg).Header? { HeaderMakes(msg); }
  }

  lemma HeaderMakes(msg: bytes)
    requires HeaderOf(msg).Header?
    ensures var h := HeaderOf(msg); h.typ in MSGTYPES && msg == MessageOf(h.typ, h.tag, h.body)
  {
    Back32(msg, 0);
    Back8(msg, 4);
    Back16(msg, 5);
    SplitSlice(msg, 0, 4, 5);
    SplitSlice(msg, 0, 5, 7);
    assert msg == msg[0..7] + msg[7..];
  }

  lemma MessageReads(typ: u8, tag: u16, body: bytes)
    requires HEADER + |body| < 0x1_0000_0000
    ensures var m := MessageOf(typ, tag, body);
      Get32(m, 0) == |m| && Get8(m, 4) == typ && Get16(m, 5) == tag && m[HEADER..] == body
  {
    var m := MessageOf(typ, tag, body);
    Powers();
    assert m[0..4] == LE(HEADER + |body|, 4) && m[4..5] == LE(typ, 1) && m[5..7] == LE(tag, 2);
    LERead(HEADER + |body|, 4);
    LERead(typ, 1);
    LERead(tag, 2);
    SmallMod(|m|, 0x1_0000_0000);
    SmallMod(typ, 256);
    SmallMod(tag, 0x1_0000);
    FromLEStep(m[4..5]);
  }

  /** It refuses all others, for an unknown type where there are a right size and a type to look at. */
  lemma RefusedFor(msg: bytes)
    ensures HeaderOf(msg) == EPROTO <==> |msg| >= 5 && FromLE(msg[0..4]) == |msg| && msg[4] !in MSGTYPES
    ensures HeaderOf(msg).Header? <==> |msg| >= 7 && FromLE(msg[0..4]) == |msg| && msg[4] in MSGTYPES
  {}

  /** encodeMessage puts the kernel client's header in front: over the same fields both make the same message. */
  lemma SameHeader(typ: u8, tag: u16, body: bytes)
    ensures MessageOf(typ, tag, body) == Messages.Header(HEADER + |body|, typ, tag) + body
  {}

  lemma SameMessage(f: Messages.Fcall, dotu: bool)
    ensures MessageOf(f.typ, f.tag, Encs(Messages.Layout(f, dotu))) == Messages.Wire(f, dotu)
  {
    SameHeader(f.typ, f.tag, Encs(Messages.Layout(f, dotu)));
  }

  /** And decodeQid undoes encodeQid, wherever the qid lies and whatever lies around it. */
  lemma QidReads(before: bytes, q: Qid, after: bytes)
    ensures SwiftWire.QidAt(before + EncQid(q) + after, |before|) == q
  {
    var s, p := before + EncQid(q) + after, |before|;
    QidBack(s, p);
    assert s[p..p + QIDSZ] == EncQid(q);
    assert EncQid(SwiftWire.QidAt(s, p)) + [] == EncQid(q) + [];
    QidUnique(SwiftWire.QidAt(s, p), q, [], []);
  }
}
