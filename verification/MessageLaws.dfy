/** What convS2M and convM2S make of each other's bytes. */
module MessageLaws {
  import opened Codec
  import opened CStrings
  import opened Messages
  import opened MessageDecoder

  /** Decoding what was encoded gives back the message, and no other, exactly when nothing was cut short. */
  lemma RoundTrip(f: Fcall, s: bytes, dotu: bool)
    requires Known(f.typ) && WellFormed(f) && WireSize(f, dotu) < 0x1_0000_0000 && Wire(f, dotu) <= s
    ensures (exists g :: Carries(s, g, dotu) && SameMessage(f, g, dotu)) <==> AllFit(Layout(f, dotu))
    ensures AllFit(Layout(f, dotu)) ==> Carries(s, f, dotu)
    ensures AllFit(Layout(f, dotu)) ==>
      forall g :: Carries(s, g, dotu) ==> SameMessage(f, g, dotu) && WireSize(g, dotu) == WireSize(f, dotu)
  {
    if AllFit(Layout(f, dotu)) {
      assert Carries(s, f, dotu) && SameMessage(f, f, dotu);
      forall g | Carries(s, g, dotu) ensures SameMessage(f, g, dotu) && WireSize(g, dotu) == WireSize(f, dotu) {
        WireUnique(f, g, dotu, s);
      }
    }
  }

  /** The bytes a size field announces, or the size field itself, if it announces fewer than its own four. */
  function Announced(s: bytes): nat
    requires |s| >= 4
  {
    if FromLE(s[..4]) < 4 then 4 else FromLE(s[..4])
  }

  /** What convM2S makes of a buffer depends on the bytes its size field announces, and on no others: it accepts
      both buffers or neither, and reads the same message from both. */
  lemma PrefixDecides(s: bytes, t: bytes, dotu: bool)
    requires |s| >= 4 && Announced(s) <= |s| && Announced(s) <= |t| && s[..Announced(s)] == t[..Announced(s)]
    ensures forall m :: Carries(s, m, dotu) <==> Carries(t, m, dotu)
    ensures forall f, g :: Carries(s, f, dotu) && Carries(t, g, dotu) ==>
      SameMessage(f, g, dotu) && WireSize(f, dotu) == WireSize(g, dotu) == Announced(s)
  {
    assert s[..4] == s[..Announced(s)][..4] == t[..4];
    forall m ensures Carries(s, m, dotu) <==> Carries(t, m, dotu) {
      if Carries(s, m, dotu) { CarriedOver(s, t, m, dotu); }
      if Carries(t, m, dotu) { CarriedOver(t, s, m, dotu); }
    }
    forall f, g | Carries(s, f, dotu) && Carries(t, g, dotu)
      ensures SameMessage(f, g, dotu) && WireSize(f, dotu) == WireSize(g, dotu) == Announced(s)
    {
      CarriedOver(s, t, f, dotu);
      WireUnique(f, g, dotu, t);
    }
  }

  lemma CarriedOver(s: bytes, t: bytes, m: Fcall, dotu: bool)
    requires |s| >= 4 && Announced(s) <= |s| && Announced(s) <= |t| && s[..Announced(s)] == t[..Announced(s)]
    requires Carries(s, m, dotu)
    ensures Carries(t, m, dotu) && WireSize(m, dotu) == Announced(s)
  {
    HeaderAhead(s, m, dotu);
    assert Wire(m, dotu) == s[..Announced(s)] == t[..Announced(s)];
  }

  // ----- re-encoding: the encoder finds the end of a string at its first NUL -----

  function CutField(f: Field): Field {
    match f
    case Text(s) => Text(UpTo(s, 0))
    case Names(names) => Names(CutNames(names))
    case _ => f
  }

  function CutNames(names: seq<bytes>): (r: seq<bytes>)
    ensures |r| == |names|
  {
    seq(|names|, i requires 0 <= i < |names| => UpTo(names[i], 0))
  }

  function CutFields(fs: seq<Field>): (r: seq<Field>)
    ensures |r| == |fs|
  {
    seq(|fs|, i requires 0 <= i < |fs| => CutField(fs[i]))
  }

  predicate NulFree(f: Field) {
    match f
    case Text(s) => 0 !in s
    case Names(names) => forall i :: 0 <= i < |names| ==> 0 !in names[i]
    case _ => true
  }

  /** The struct as a C program reads it. */
  function Cut(f: Fcall): Fcall {
    f.(version := UpTo(f.version, 0), ename := UpTo(f.ename, 0), uname := UpTo(f.uname, 0), aname := UpTo(f.aname, 0),
       name := UpTo(f.name, 0), ext := UpTo(f.ext, 0), wname := CutNames(f.wname))
  }

  predicate CutAt(fs: seq<Field>, gs: seq<Field>, i: nat) {
    |gs| == |fs| && (i < |fs| ==> gs[i] == CutField(fs[i]))
  }

  lemma CutVersion(f: Fcall, g: Fcall, dotu: bool, i: nat)
    requires g == Cut(f) && (f.typ == TVERSION || f.typ == RVERSION)
    ensures CutAt(Layout(f, dotu), Layout(g, dotu), i)
  {
    assert Layout(f, dotu) == [Num(4, f.msize), Text(f.version)];
    assert Layout(g, dotu) == [Num(4, g.msize), Text(g.version)];
  }

  /** The field one of the dialects adds is cut like the ones before it. */
  lemma CutTail(fs: seq<Field>, gs: seq<Field>, dotu: bool, x: Field, y: Field, i: nat)
    requires CutAt(fs, gs, i) && y == CutField(x)
    ensures CutAt(fs + When(dotu, x), gs + When(dotu, y), i)
  {}

  lemma CutAuth(f: Fcall, g: Fcall, dotu: bool, i: nat)
    requires g == Cut(f) && f.typ == TAUTH
    ensures CutAt(Layout(f, dotu), Layout(g, dotu), i)
  {
    CutTail(AuthFields(f), AuthFields(g), dotu, Num(4, f.unamenum), Num(4, g.unamenum), i);
  }

  lemma CutAttach(f: Fcall, g: Fcall, dotu: bool, i: nat)
    requires g == Cut(f) && f.typ == TATTACH
    ensures CutAt(Layout(f, dotu), Layout(g, dotu), i)
  {
    CutTail(AttachFields(f), AttachFields(g), dotu, Num(4, f.unamenum), Num(4, g.unamenum), i);
  }

  lemma CutError(f: Fcall, g: Fcall, dotu: bool, i: nat)
    requires g == Cut(f) && f.typ == RERROR
    ensures CutAt(Layout(f, dotu), Layout(g, dotu), i)
  {
    CutTail([Text(f.ename)], [Text(g.ename)], dotu, Num(4, f.errnum), Num(4, g.errnum), i);
  }

  lemma CutWalk(f: Fcall, g: Fcall, dotu: bool, i: nat)
    requires g == Cut(f) && f.typ == TWALK
    ensures CutAt(Layout(f, dotu), Layout(g, dotu), i)
  {}

  lemma CutCreate(f: Fcall, g: Fcall, dotu: bool, i: nat)
    requires g == Cut(f) && f.typ == TCREATE
    ensures CutAt(Layout(f, dotu), Layout(g, dotu), i)
  {
    CutTail(CreateFields(f), CreateFields(g), dotu, Text(f.ext), Text(g.ext), i);
  }

  predicate HasStrings(typ: u8) { typ in [TVERSION, RVERSION, TAUTH, TATTACH, RERROR, TWALK, TCREATE] }

  predicate Stringless(f: Field) { !f.Text? && !f.Names? }

  /** The other messages carry neither strings nor names. */
  lemma CutOthers(f: Fcall, g: Fcall, dotu: bool, i: nat)
    requires g == Cut(f) && !HasStrings(f.typ)
    ensures CutAt(Layout(f, dotu), Layout(g, dotu), i)
  {
    var fs := Layout(f, dotu);
    OthersKept(f, g, dotu);
    OthersStringless(f, dotu);
    if i < |fs| { assert Stringless(fs[i]); }
  }

  lemma OthersKept(f: Fcall, g: Fcall, dotu: bool)
    requires g == Cut(f) && !HasStrings(f.typ)
    ensures Layout(g, dotu) == Layout(f, dotu)
  {}

  lemma OthersStringless(f: Fcall, dotu: bool)
    requires !HasStrings(f.typ)
    ensures forall i :: 0 <= i < |Layout(f, dotu)| ==> Stringless(Layout(f, dotu)[i])
  {}

  lemma CutEverywhere(f: Fcall, g: Fcall, dotu: bool, i: nat)
    requires g == Cut(f)
    ensures CutAt(Layout(f, dotu), Layout(g, dotu), i)
  {
    if !HasStrings(f.typ) { CutOthers(f, g, dotu, i); }
    else if f.typ == TAUTH { CutAuth(f, g, dotu, i); }
    else if f.typ == TATTACH { CutAttach(f, g, dotu, i); }
    else if f.typ == RERROR { CutError(f, g, dotu, i); }
    else if f.typ == TWALK { CutWalk(f, g, dotu, i); }
    else if f.typ == TCREATE { CutCreate(f, g, dotu, i); }
    else { CutVersion(f, g, dotu, i); }
  }

  lemma Collect(fs: seq<Field>, gs: seq<Field>)
    requires forall i: nat :: CutAt(fs, gs, i)
    ensures gs == CutFields(fs)
  {
    assert CutAt(fs, gs, 0);
    forall i: nat | i < |fs| ensures gs[i] == CutField(fs[i]) { assert CutAt(fs, gs, i); }
  }

  lemma CutLayout(f: Fcall, dotu: bool)
    ensures Layout(Cut(f), dotu) == CutFields(Layout(f, dotu))
  {
    forall i: nat ensures CutAt(Layout(f, dotu), Layout(Cut(f), dotu), i) { CutEverywhere(f, Cut(f), dotu, i); }
    Collect(Layout(f, dotu), Layout(Cut(f), dotu));
  }

  lemma CutSame(f: Field)
    ensures CutField(f) == f <==> NulFree(f)
  {
    if f.Names? {
      if NulFree(f) {
        assert CutNames(f.names) == f.names;
      } else {
        var i :| 0 <= i < |f.names| && 0 in f.names[i];
        assert CutNames(f.names)[i] != f.names[i];
      }
    }
  }

  lemma CutFits(fs: seq<Field>)
    requires AllFit(fs)
    ensures AllFit(CutFields(fs)) && SameKinds(CutFields(fs), fs)
  {
    forall i | 0 <= i < |fs| ensures Fits(CutFields(fs)[i]) && SameKind(CutFields(fs)[i], fs[i]) {
      assert Fits(fs[i]);
    }
  }

  lemma CutEncs(fs: seq<Field>)
    requires AllFit(fs)
    ensures Encs(CutFields(fs)) == Encs(fs) <==> forall i :: 0 <= i < |fs| ==> NulFree(fs[i])
  {
    if Encs(CutFields(fs)) == Encs(fs) {
      CutFits(fs);
      FieldsUnique(CutFields(fs), fs, [], []);
      forall i | 0 <= i < |fs| ensures NulFree(fs[i]) {
        assert CutFields(fs)[i] == fs[i];
        CutSame(fs[i]);
      }
    }
    if forall i :: 0 <= i < |fs| ==> NulFree(fs[i]) {
      forall i | 0 <= i < |fs| ensures CutFields(fs)[i] == fs[i] { CutSame(fs[i]); }
      assert CutFields(fs) == fs;
    }
  }

  /** Canonical: re-encoding an accepted message reproduces the bytes it was decoded from, exactly when none
      of its strings holds a NUL. */
  lemma Canonical(s: bytes, f: Fcall, dotu: bool)
    requires Carries(s, f, dotu)
    ensures Wire(Cut(f), dotu) == s[..WireSize(f, dotu)] <==>
      forall i :: 0 <= i < |Layout(f, dotu)| ==> NulFree(Layout(f, dotu)[i])
  {
    CutLayout(f, dotu);
    CutEncs(Layout(f, dotu));
    var u, v := Wire(Cut(f), dotu), Wire(f, dotu);
    assert v == s[..WireSize(f, dotu)];
    assert u[HEADERSZ..] == Encs(Layout(Cut(f), dotu)) && v[HEADERSZ..] == Encs(Layout(f, dotu));
  }
}
