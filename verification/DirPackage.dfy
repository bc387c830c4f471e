/** dirpackage and readdirs_9p of kext/proto.c: a directory is read as one byte stream, sized and checked in
    a first pass and unpacked in a second. */
module DirPackage {
  import opened Codec
  import opened Options
  import opened Sequences
  import opened Stat

  const EBADRPC := 72
  const STATMAX := 65535
  /** sizeof(Dir) with eight-byte pointers. */
  const SIZEOFDIR := 104
  const DIRMAX := SIZEOFDIR + STATMAX
  const IOHDRSZ := 24

  // ----- the stream -----

  ghost predicate IsEntry(e: bytes, dotu: bool) {
    |e| >= 2 && FromLE(e[..2]) == |e| - 2 && Checks(e, dotu)
  }

  /** The entries the stream is made of: each as long as its count says, and acceptable to statcheck. */
  ghost function Entries(s: bytes, dotu: bool): Option<seq<bytes>>
    decreases |s|
  {
    if s == [] then Some([])
    else if |s| < 2 || 2 + FromLE(s[..2]) > |s| then None
    else
      var m := 2 + FromLE(s[..2]);
      var r := Entries(s[m..], dotu);
      if r.None? || !Checks(s[..m], dotu) then None else Some([s[..m]] + r.value)
  }

  function Concat(es: seq<bytes>): bytes {
    if es == [] then [] else es[0] + Concat(es[1..])
  }

  lemma {:induction false} EntriesSound(s: bytes, dotu: bool)
    requires Entries(s, dotu).Some?
    ensures Concat(Entries(s, dotu).value) == s
    ensures AllEntries(Entries(s, dotu).value, dotu)
    decreases |s|
  {
    if s != [] {
      var m := 2 + FromLE(s[..2]);
      EntriesSound(s[m..], dotu);
      assert s[..m][..2] == s[..2];
      assert s == s[..m] + s[m..];
      EntriesCons(s[..m], Entries(s[m..], dotu).value, dotu);
    }
  }

  lemma EntriesCons(e: bytes, es: seq<bytes>, dotu: bool)
    requires IsEntry(e, dotu) && AllEntries(es, dotu)
    ensures AllEntries([e] + es, dotu) && Concat([e] + es) == e + Concat(es)
  {
    var all := [e] + es;
    assert all[1..] == es;
    forall j | 0 <= j < |all| ensures IsEntry(all[j], dotu) {
      if j > 0 { assert all[j] == es[j - 1]; }
    }
  }

  lemma {:induction false} EntriesComplete(es: seq<bytes>, dotu: bool)
    requires AllEntries(es, dotu)
    ensures Entries(Concat(es), dotu) == Some(es)
  {
    if es != [] {
      var e, s := es[0], Concat(es);
      assert IsEntry(e, dotu);
      EntriesComplete(es[1..], dotu);
      assert s[..|e|] == e && s[|e|..] == Concat(es[1..]) && s[..2] == e[..2];
      assert [e] + es[1..] == es;
    }
  }

  ghost predicate AllEntries(es: seq<bytes>, dotu: bool) { forall j :: 0 <= j < |es| ==> IsEntry(es[j], dotu) }

  ghost function Prepend(es: seq<bytes>, r: Option<seq<bytes>>): Option<seq<bytes>> {
    match r
    case None => None
    case Some(fs) => Some(es + fs)
  }

  lemma PrependTwice(a: seq<bytes>, b: seq<bytes>, r: Option<seq<bytes>>)
    ensures Prepend(a, Prepend(b, r)) == Prepend(a + b, r) && Prepend([], r) == r
  {
    if r.Some? {
      Assoc(a, b, r.value);
      assert [] + r.value == r.value;
    }
  }

  /** Behind entries already found the stream goes on as if it started there. */
  lemma {:induction false} EntriesAfter(es: seq<bytes>, rest: bytes, dotu: bool)
    requires AllEntries(es, dotu)
    ensures Entries(Concat(es) + rest, dotu) == Prepend(es, Entries(rest, dotu))
  {
    if es == [] {
      assert Concat(es) + rest == rest;
      PrependTwice([], [], Entries(rest, dotu));
    } else {
      EntriesAfter(es[1..], rest, dotu);
      assert IsEntry(es[0], dotu);
      OneEntry(es[0], Concat(es[1..]) + rest, dotu);
      Assoc(es[0], Concat(es[1..]), rest);
      PrependTwice([es[0]], es[1..], Entries(rest, dotu));
      assert [es[0]] + es[1..] == es;
    }
  }

  lemma OneEntry(e: bytes, rest: bytes, dotu: bool)
    requires IsEntry(e, dotu)
    ensures Entries(e + rest, dotu) == Prepend([e], Entries(rest, dotu))
  {
    var s := e + rest;
    assert s[..|e|] == e && s[|e|..] == rest && s[..2] == e[..2];
  }

  lemma ConcatMore(es: seq<bytes>, e: bytes)
    ensures Concat(es + [e]) == Concat(es) + e
  {
    if es == [] {
      assert [] + [e] == [e] && [e][1..] == [];
    } else {
      assert (es + [e])[1..] == es[1..] + [e];
      ConcatMore(es[1..], e);
    }
  }

  /** The entries es have been found up to place i; past the end of the stream there is nothing to find. */
  ghost predicate Found(s: bytes, i: nat, es: seq<bytes>, dotu: bool) {
    if i <= |s| then AllEntries(es, dotu) && Concat(es) == s[..i] else Entries(s, dotu).None?
  }

  /** The entry e at i: of the length announced, as far as the stream says so. */
  ghost predicate Announced(s: bytes, i: nat, e: bytes) {
    && |e| >= 2
    && (i + 2 <= |s| ==> |e| == 2 + FromLE(s[i..i + 2]))
    && (i + |e| <= |s| ==> e == s[i..i + |e|])
  }

  /** What the stream comes to from an entry announced at its start. */
  lemma AnnouncedFirst(rest: bytes, e: bytes, dotu: bool)
    requires rest != [] && Announced(rest, 0, e)
    ensures !Checks(e, dotu) || |e| > |rest| ==> Entries(rest, dotu).None?
    ensures |e| <= |rest| ==> FromLE(e[..2]) == |e| - 2 && e == rest[..|e|]
  {
    if |rest| >= 2 { assert rest[0..2] == rest[..2]; }
    if |e| <= |rest| { SubSlice(rest, 0, |e|, 0, 2); }
  }

  lemma AnnouncedRest(s: bytes, i: nat, e: bytes)
    requires i < |s| && Announced(s, i, e)
    ensures Announced(s[i..], 0, e)
  {
    assert s[i..] == s[i..|s|];
    if i + 2 <= |s| { SubSlice(s, i, |s|, 0, 2); }
    if i + |e| <= |s| { SubSlice(s, i, |s|, 0, |e|); }
  }

  lemma FoundNext(s: bytes, i: nat, es: seq<bytes>, e: bytes, dotu: bool)
    requires i < |s| && Found(s, i, es, dotu) && Announced(s, i, e)
    ensures Checks(e, dotu) ==> Found(s, i + |e|, es + [e], dotu)
    ensures !Checks(e, dotu) ==> Entries(s, dotu).None?
  {
    var rest := s[i..];
    AnnouncedRest(s, i, e);
    AnnouncedFirst(rest, e, dotu);
    assert s == Concat(es) + rest;
    EntriesAfter(es, rest, dotu);
    if i + |e| <= |s| && Checks(e, dotu) {
      ConcatMore(es, e);
      SplitSlice(s, 0, i, i + |e|);
      EntriesMore(es, e, dotu);
    }
  }

  lemma EntriesMore(es: seq<bytes>, e: bytes, dotu: bool)
    requires AllEntries(es, dotu) && IsEntry(e, dotu)
    ensures AllEntries(es + [e], dotu)
  {}

  lemma FoundAll(s: bytes, es: seq<bytes>, dotu: bool)
    requires Found(s, |s|, es, dotu)
    ensures Entries(s, dotu) == Some(es)
  {
    assert s[..|s|] == s;
    EntriesComplete(es, dotu);
  }

  /** Every byte looked at lies in the ts + DIRMAX of the buffer, however the stream goes on. */
  method FirstPass(buf: array<byte>, ts: nat, dotu: bool) returns (ok: bool, ss: nat, n: nat)
    requires ts + DIRMAX <= buf.Length
    ensures ok <==> Entries(buf[..ts], dotu).Some?
    ensures ok ==> ss == ts && n == |Entries(buf[..ts], dotu).value|
  {
    ghost var s, es := buf[..ts], [];
    ss, n := 0, 0;
    var i := 0;
    while i < ts
      invariant ss == i && n == |es| && Found(s, i, es, dotu)
      decreases ts - i
    {
      var m, e := EntryAt(buf, i, ts, s);
      FoundNext(s, i, es, e, dotu);
      var sound := Statcheck(e, dotu);
      if !sound { return false, ss, n; }
      ss := ss + m;
      n := n + 1;
      i := i + m;
      es := es + [e];
    }
    if i == ts { FoundAll(s, es, dotu); }
    ok := i == ts;
  }

  method EntryAt(buf: array<byte>, i: nat, ts: nat, ghost s: bytes) returns (m: nat, e: bytes)
    requires i < ts && ts + DIRMAX <= buf.Length && s == buf[..ts]
    ensures |e| == m && Announced(s, i, e)
  {
    m := 2 + Gbit16(buf[i], buf[i + 1]);
    Gbit16Is(buf[i], buf[i + 1]);
    e := buf[i..i + m];
    if i + 2 <= |s| { assert s[i..i + 2] == [buf[i], buf[i + 1]]; }
  }

  // ----- the second pass -----

  /** Entry j, unpacked over the uninitialised struct blank. */
  ghost predicate Unpacks(e: bytes, d: Dir, blank: Dir, dotu: bool) {
    |e| >= FIXED && ReadDir(e, blank, dotu) == Some((d, |e|))
  }

  lemma EntryUnpacks(e: bytes, blank: Dir, dotu: bool)
    requires IsEntry(e, dotu)
    ensures |e| >= FIXED && ReadDir(e, blank, dotu).Some? && ReadDir(e, blank, dotu).value.1 == |e|
  {
    var d :| Decodes(e, d, |e|, dotu);
    ReadComplete(e, d, |e|, blank, dotu);
  }

  function Offset(es: seq<bytes>, j: nat): nat
    requires j <= |es|
  {
    if j == 0 then 0 else Offset(es, j - 1) + |es[j - 1]|
  }

  /** The strings xs, each in the slot that its entry takes up in the stream. */
  ghost predicate InSlots(strs: bytes, es: seq<bytes>, xs: seq<bytes>) {
    |xs| <= |es| && forall j :: 0 <= j < |xs| ==> HasStored(strs, Offset(es, j), |es[j]|, xs[j])
  }

  ghost predicate HasStored(strs: bytes, at: nat, room: nat, stored: bytes) {
    |stored| <= room && at + room <= |strs| && strs[at..at + |stored|] == stored
  }

  lemma {:induction false} OffsetMono(es: seq<bytes>, j: nat, k: nat)
    requires j < k <= |es|
    ensures Offset(es, j) + |es[j]| <= Offset(es, k)
  {
    if j < k - 1 { OffsetMono(es, j, k - 1); }
  }

  lemma StoredKept(was: bytes, now: bytes, so: nat, at: nat, room: nat, x: bytes)
    requires HasStored(was, at, room, x) && at + room <= so <= |now| == |was| && now[..so] == was[..so]
    ensures HasStored(now, at, room, x)
  {
    assert now[at..at + |x|] == now[..so][at..at + |x|] && was[at..at + |x|] == was[..so][at..at + |x|];
  }

  lemma SlotsKept(was: bytes, now: bytes, es: seq<bytes>, xs: seq<bytes>, so: nat)
    requires InSlots(was, es, xs) && so == Offset(es, |xs|) && so <= |now| == |was| && now[..so] == was[..so]
    ensures InSlots(now, es, xs)
  {
    forall j | 0 <= j < |xs| ensures HasStored(now, Offset(es, j), |es[j]|, xs[j]) {
      OffsetMono(es, j, |xs|);
      StoredKept(was, now, so, Offset(es, j), |es[j]|, xs[j]);
    }
  }

  lemma SlotsMore(now: bytes, es: seq<bytes>, xs: seq<bytes>, x: bytes)
    requires |xs| < |es| && InSlots(now, es, xs) && HasStored(now, Offset(es, |xs|), |es[|xs|]|, x)
    ensures InSlots(now, es, xs + [x])
  {
    var ys, n := xs + [x], |xs|;
    assert ys[n] == x && ys[..n] == xs;
    forall j | 0 <= j < n + 1 ensures HasStored(now, Offset(es, j), |es[j]|, ys[j]) {
      assert j < n ==> ys[j] == xs[j];
      assert j == n || HasStored(now, Offset(es, j), |es[j]|, xs[j]);
    }
  }

  /** Unpacking the next entry into its slot disturbs no slot before it. */
  lemma SlotFilled(was: bytes, now: bytes, es: seq<bytes>, xs: seq<bytes>, n: nat, e: bytes, so: nat, x: bytes)
    requires n == |xs| < |es| && es[n] == e && so == Offset(es, n) && so + |e| <= |was| && |e| >= FIXED
    requires InSlots(was, es, xs) && Filled(was, now, so, so + |x|, so + |e| - FIXED, x)
    ensures InSlots(now, es, xs + [x])
  {
    SlotsKept(was, now, es, xs, so);
    SlotsMore(now, es, xs, x);
  }

  function StoredAll(ds: seq<Dir>, dotu: bool): (r: seq<bytes>)
    ensures |r| == |ds|
  {
    seq(|ds|, j requires 0 <= j < |ds| => Stored(Strings(ds[j], dotu)))
  }

  lemma StoredAllMore(ds: seq<Dir>, d: Dir, dotu: bool)
    ensures StoredAll(ds + [d], dotu) == StoredAll(ds, dotu) + [Stored(Strings(d, dotu))]
  {}

  /** The structs are what the entries unpack to, in order. */
  ghost predicate AllUnpack(es: seq<bytes>, ds: seq<Dir>, blank: Dir, dotu: bool) {
    |ds| <= |es| && forall j :: 0 <= j < |ds| ==> Unpacks(es[j], ds[j], blank, dotu)
  }

  lemma UnpackMore(es: seq<bytes>, ds: seq<Dir>, d: Dir, blank: Dir, dotu: bool)
    requires AllUnpack(es, ds, blank, dotu) && |ds| < |es| && Unpacks(es[|ds|], d, blank, dotu)
    ensures AllUnpack(es, ds + [d], blank, dotu)
  {}

  lemma {:induction false} OffsetTail(es: seq<bytes>, n: nat)
    requires 0 < n <= |es|
    ensures Offset(es, n) == |es[0]| + Offset(es[1..], n - 1)
  {
    if n > 1 { OffsetTail(es, n - 1); }
  }

  /** Where entry n lies in the stream. */
  lemma {:induction false} PieceAt(es: seq<bytes>, n: nat)
    requires n <= |es|
    ensures Offset(es, n) <= |Concat(es)| && (n == |es| ==> Offset(es, n) == |Concat(es)|)
    ensures n < |es| ==>
      Offset(es, n) + |es[n]| <= |Concat(es)| && Concat(es)[Offset(es, n)..Offset(es, n) + |es[n]|] == es[n]
  {
    if n > 0 {
      OffsetTail(es, n);
      PieceAt(es[1..], n - 1);
      if n < |es| {
        var at, k := Offset(es[1..], n - 1), |es[n]|;
        assert Concat(es)[|es[0]| + at..|es[0]| + at + k] == Concat(es[1..])[at..at + k];
      }
    }
  }

  lemma EntryHere(s: bytes, es: seq<bytes>, n: nat, m: nat, e: bytes, blank: Dir, dotu: bool)
    requires AllEntries(es, dotu) && Concat(es) == s && n <= |es| && Offset(es, n) < |s| && |e| == m &&
      Announced(s, Offset(es, n), e)
    ensures n < |es| && e == es[n] && Offset(es, n + 1) == Offset(es, n) + m <= |s|
    ensures m >= FIXED && ReadDir(e, blank, dotu).Some? && ReadDir(e, blank, dotu).value.1 == m
  {
    PieceAt(es, n);
    assert IsEntry(es[n], dotu);
    SameEntry(s, Offset(es, n), es[n], e);
    EntryUnpacks(es[n], blank, dotu);
  }

  lemma SameEntry(s: bytes, i: nat, e: bytes, f: bytes)
    requires i + |e| <= |s| && s[i..i + |e|] == e && |e| >= 2 && FromLE(e[..2]) == |e| - 2 && Announced(s, i, f)
    ensures e == f
  {
    SubSlice(s, i, i + |e|, 0, 2);
  }

  /** What has been unpacked: the structs, and their strings in their slots. */
  ghost predicate Sofar(strs: bytes, es: seq<bytes>, ds: seq<Dir>, blank: Dir, dotu: bool) {
    AllUnpack(es, ds, blank, dotu) && InSlots(strs, es, StoredAll(ds, dotu))
  }

  lemma SofarMore(was: bytes, now: bytes, es: seq<bytes>, ds: seq<Dir>, n: nat, e: bytes, so: nat, d: Dir, x: bytes,
      blank: Dir, dotu: bool)
    requires n == |ds| < |es| && es[n] == e && so == Offset(es, n) && so + |e| <= |was|
    requires Sofar(was, es, ds, blank, dotu) && Unpacks(e, d, blank, dotu)
    requires x == Stored(Strings(d, dotu)) && Filled(was, now, so, so + |x|, so + |e| - FIXED, x)
    ensures Sofar(now, es, ds + [d], blank, dotu)
  {
    SlotFilled(was, now, es, StoredAll(ds, dotu), n, e, so, x);
    StoredAllMore(ds, d, dotu);
    UnpackMore(es, ds, d, blank, dotu);
  }

  /** The stream, its entries, and how far the second pass has come. */
  ghost predicate Standing(s: bytes, es: seq<bytes>, i: nat, nn: nat, dotu: bool) {
    AllEntries(es, dotu) && Concat(es) == s && nn <= |es| && i == Offset(es, nn)
  }

  lemma StandingEnds(s: bytes, es: seq<bytes>, i: nat, nn: nat, dotu: bool)
    requires Standing(s, es, i, nn, dotu)
    ensures i <= |s| && (i == |s| <==> nn == |es|)
  {
    PieceAt(es, nn);
    assert nn < |es| ==> IsEntry(es[nn], dotu);
  }

  /** One entry: where it lies, and into its slot. */
  method UnpackAt(buf: array<byte>, ts: nat, i: nat, strs: array<byte>, blank: Dir, dotu: bool,
                  ghost s: bytes, ghost es: seq<bytes>, ghost nn: nat, ghost ds: seq<Dir>)
                    returns (m: nat, k: nat, d: Dir)
    requires i < ts && ts + DIRMAX <= buf.Length && strs.Length == ts && strs != buf && s == buf[..ts]
    requires Standing(s, es, i, nn, dotu) && nn == |ds| && Sofar(strs[..], es, ds, blank, dotu)
    modifies strs
    ensures k == m && m > 0 && Standing(s, es, i + m, nn + 1, dotu)
    ensures Sofar(strs[..], es, ds + [d], blank, dotu)
  {
    var e;
    m, e := EntryAt(buf, i, ts, s);
    EntryHere(s, es, nn, m, e, blank, dotu);
    ghost var was := strs[..];
    ghost var stored;
    k, d, stored := ConvM2D(e, blank, strs, i, dotu);
    SofarMore(was, strs[..], es, ds, nn, e, i, d, stored, blank, dotu);
  }

  /** The branches that give up are in the source too; what the first pass has established keeps them from
      being taken. */
  method SecondPass(buf: array<byte>, ts: nat, n: nat, strs: array<byte>, blank: Dir, dotu: bool, ghost es: seq<bytes>)
      returns (ok: bool, ds: seq<Dir>)
    requires ts + DIRMAX <= buf.Length && strs.Length == ts && strs != buf
    requires Standing(buf[..ts], es, 0, 0, dotu) && n == |es|
    modifies strs
    ensures ok && |ds| == n && Sofar(strs[..], es, ds, blank, dotu)
  {
    ghost var s := buf[..ts];
    ds := [];
    var i, nn := 0, 0;
    while i < ts
      invariant |ds| == nn && Standing(s, es, i, nn, dotu) && s == buf[..ts]
      invariant Sofar(strs[..], es, ds, blank, dotu)
      decreases ts - i
    {
      StandingEnds(s, es, i, nn, dotu);
      if nn >= n { return false, ds; }
      var m, k, d := UnpackAt(buf, ts, i, strs, blank, dotu, s, es, nn, ds);
      if k != m { return false, ds; }
      ds := ds + [d];
      nn := nn + 1;
      i := i + m;
    }
    StandingEnds(s, es, i, nn, dotu);
    ok := true;
  }

  /** The stream is read from buf[..ts]; on success the structs are in stream order and strs holds their
      strings, each entry's in a slot of its own. */
  method Dirpackage(buf: array<byte>, ts: nat, blank: Dir, dotu: bool) returns (e: nat, ds: seq<Dir>, strs: array<byte>)
    requires ts + DIRMAX <= buf.Length
    ensures e == if Entries(buf[..ts], dotu).Some? then 0 else EBADRPC
    ensures e != 0 ==> ds == []
    ensures e == 0 ==>
      |ds| == |Entries(buf[..ts], dotu).value| && Sofar(strs[..], Entries(buf[..ts], dotu).value, ds, blank, dotu)
    ensures fresh(strs)
  {
    ds := [];
    if ts <= 0 {
      strs := new byte[0];
      return 0, [], strs;
    }
    var ok, ss, n := FirstPass(buf, ts, dotu);
    if !ok {
      strs := new byte[0];
      return EBADRPC, [], strs;
    }
    EntriesSound(buf[..ts], dotu);
    strs := new byte[ss];
    e := EBADRPC;
    ok, ds := SecondPass(buf, ts, n, strs, blank, dotu, Entries(buf[..ts], dotu).value);
    if ok { e := 0; }
  }

  // ----- laws -----

  /** The entry can be sent: its size fits in its count. */
  predicate Sendable(d: Dir, dotu: bool) { StatSize(d, dotu) - 2 < 0x1_0000 }

  predicate AllSendable(ds: seq<Dir>, dotu: bool) { forall j :: 0 <= j < |ds| ==> Sendable(ds[j], dotu) }

  function Wires(ds: seq<Dir>, dotu: bool): (r: seq<bytes>)
    ensures |r| == |ds|
  {
    seq(|ds|, j requires 0 <= j < |ds| => StatWire(ds[j], dotu))
  }

  predicate SameDirs(ds: seq<Dir>, es: seq<Dir>, dotu: bool) {
    |ds| == |es| && forall j :: 0 <= j < |ds| ==> SameDir(ds[j], es[j], dotu)
  }

  lemma SendableFits(d: Dir, dotu: bool)
    requires Sendable(d, dotu)
    ensures AllFit(DirFields(d, dotu)) && IsEntry(StatWire(d, dotu), dotu) &&
      Decodes(StatWire(d, dotu), d, StatSize(d, dotu), dotu)
  {
    var n := StatSize(d, dotu) - 2;
    var w := StatWire(d, dotu);
    DirBytes(d, dotu);
    DirFits(d, dotu);
    forall i | 0 <= i < |Strings(d, dotu)| ensures |Strings(d, dotu)[i]| < 0x1_0000 { OneOfNames(Strings(d, dotu), i); }
    Powers();
    LERead(n, 2);
    SmallMod(n, 0x1_0000);
    assert w[..2] == LE(n, 2) && w[2..] == Encs(DirFields(d, dotu)) && w[2..|w|] == w[2..];
    assert Decodes(w, d, |w|, dotu);
  }

  lemma {:induction false} OneOfNames(names: seq<bytes>, i: nat)
    requires i < |names|
    ensures |names[i]| <= |EncNames(names)|
  {
    if i > 0 { OneOfNames(names[1..], i - 1); }
  }

  lemma EntryIsWire(e: bytes, d: Dir, dotu: bool)
    requires |e| >= 2 && FromLE(e[..2]) == |e| - 2 && Decodes(e, d, |e|, dotu)
    ensures e == StatWire(d, dotu) && Sendable(d, dotu)
  {
    LEWrite(e[..2]);
    FromLEBound(e[..2]);
    Powers();
    assert e == e[..2] + e[2..|e|];
  }

  /** Any list of entries that can be sent is accepted, and unpacks to that list, in order. */
  lemma StreamUnpacks(ds: seq<Dir>, es: seq<Dir>, blank: Dir, dotu: bool)
    requires AllSendable(ds, dotu)
    ensures Entries(Concat(Wires(ds, dotu)), dotu) == Some(Wires(ds, dotu))
    ensures |es| == |ds| && AllUnpack(Wires(ds, dotu), es, blank, dotu) ==> SameDirs(ds, es, dotu)
  {
    forall j | 0 <= j < |ds| ensures IsEntry(Wires(ds, dotu)[j], dotu) { SendableFits(ds[j], dotu); }
    EntriesComplete(Wires(ds, dotu), dotu);
    if |es| == |ds| && AllUnpack(Wires(ds, dotu), es, blank, dotu) {
      forall j | 0 <= j < |ds| ensures SameDir(ds[j], es[j], dotu) {
        SendableFits(ds[j], dotu);
        var w := Wires(ds, dotu)[j];
        assert Unpacks(w, es[j], blank, dotu);
        ReadSound(w, blank, dotu);
        DecodesUnique(w, ds[j], |w|, es[j], |w|, dotu);
      }
    }
  }

  /** Nothing else is accepted. */
  lemma OnlyStreams(s: bytes, dotu: bool) returns (ds: seq<Dir>)
    requires Entries(s, dotu).Some?
    ensures AllSendable(ds, dotu) && s == Concat(Wires(ds, dotu)) && |ds| == |Entries(s, dotu).value|
  {
    EntriesSound(s, dotu);
    ds := DirsOf(Entries(s, dotu).value, dotu);
  }

  lemma {:induction false} DirsOf(es: seq<bytes>, dotu: bool) returns (ds: seq<Dir>)
    requires AllEntries(es, dotu)
    ensures AllSendable(ds, dotu) && Wires(ds, dotu) == es
  {
    if es == [] {
      ds := [];
    } else {
      var e := es[0];
      assert IsEntry(e, dotu);
      var d :| Decodes(e, d, |e|, dotu);
      EntryIsWire(e, d, dotu);
      var rest := DirsOf(es[1..], dotu);
      ds := [d] + rest;
      WiresCons(d, rest, dotu);
      assert es == [e] + es[1..];
    }
  }

  lemma WiresCons(d: Dir, ds: seq<Dir>, dotu: bool)
    ensures Wires([d] + ds, dotu) == [StatWire(d, dotu)] + Wires(ds, dotu)
    ensures Sendable(d, dotu) && AllSendable(ds, dotu) ==> AllSendable([d] + ds, dotu)
  {
    var all := [d] + ds;
    forall j | 0 <= j < |all| ensures Wires(all, dotu)[j] == ([StatWire(d, dotu)] + Wires(ds, dotu))[j] {
      if j > 0 { assert all[j] == ds[j - 1]; }
    }
    if Sendable(d, dotu) && AllSendable(ds, dotu) {
      forall j | 0 <= j < |all| ensures Sendable(all[j], dotu) {
        if j > 0 { assert all[j] == ds[j - 1]; }
      }
    }
  }

  // ----- readdirs_9p -----

  type Errno = e: nat | e != 0 witness 1

  datatype Answer = Failed(e: Errno) | Data(data: bytes)

  /** What the server says to a read at each offset. */
  type Server = nat -> Answer

  /** From limit on there is nothing more to read. */
  ghost predicate Ends(server: Server, limit: nat) {
    forall off: nat :: off >= limit ==> server(off).Failed? || server(off).data == []
  }

  function Clamped(data: bytes, count: nat): bytes { if |data| > count then data[..count] else data }

  /** What rdwr_9p asks for at a time. */
  function Count(msize: nat): nat
    requires msize > IOHDRSZ
  {
    if DIRMAX < msize - IOHDRSZ then DIRMAX else msize - IOHDRSZ
  }

  /** It is as much as there is room for, in the buffer and in a message. */
  lemma CountFits(msize: nat)
    requires msize > IOHDRSZ
    ensures 0 < Count(msize) <= DIRMAX && Count(msize) + IOHDRSZ <= msize
    ensures Count(msize) == DIRMAX || Count(msize) + IOHDRSZ == msize
  {}

  /** The bytes that arrive from off on, or the error that ends the reading. */
  ghost function Received(server: Server, count: nat, off: nat, limit: nat): (r: Answer)
    requires Ends(server, limit)
    decreases limit - off
  {
    match server(off)
    case Failed(e) => Failed(e)
    case Data(data) =>
      var part := Clamped(data, count);
      if part == [] || off >= limit then Data([])
      else match Received(server, count, off + |part|, limit)
        case Failed(e) => Failed(e)
        case Data(rest) => Data(part + rest)
  }

  /** The server answers from one byte stream, in pieces of any length but none. */
  ghost predicate Honest(server: Server, stream: bytes) {
    forall off: nat :: off <= |stream| ==>
      && server(off).Data? && server(off).data <= stream[off..]
      && (off < |stream| ==> server(off).data != [])
  }

  lemma PartOf(stream: bytes, off: nat, part: bytes, next: nat)
    requires off <= |stream| && part <= stream[off..] && next == off + |part|
    ensures next <= |stream| && stream[off..] == part + stream[next..]
  {
    assert stream[off..][..|part|] == part;
  }

  /** However the server cuts its stream, and even where it sends more than it was asked for, the stream
      arrives whole. */
  lemma {:induction false} ReceivesAll(server: Server, stream: bytes, count: nat, off: nat, limit: nat)
    requires Honest(server, stream) && Ends(server, limit) && count > 0 && off <= |stream|
    ensures Received(server, count, off, limit) == Data(stream[off..])
    decreases |stream| - off
  {
    if off < |stream| {
      var part := Clamped(server(off).data, count);
      var next := off + |part|;
      PartOf(stream, off, part, next);
      ReceivesAll(server, stream, count, next, limit);
    }
  }

  /** Where the reading stands after k reads that delivered something. */
  function Place(server: Server, count: nat, off: nat, k: nat): Option<nat>
    decreases k
  {
    if k == 0 then Some(off)
    else if server(off).Failed? || server(off).data == [] || count == 0 then None
    else Place(server, count, off + |Clamped(server(off).data, count)|, k - 1)
  }

  /** The first read that fails ends the reading with its error, however much has arrived before; the first that
      delivers nothing ends it with all the bytes up to there. */
  lemma {:induction false} FirstEnds(server: Server, count: nat, off: nat, limit: nat, k: nat)
    requires Ends(server, limit) && count > 0 && Place(server, count, off, k).Some?
    ensures var p := Place(server, count, off, k).value;
      && (server(p).Failed? ==> Received(server, count, off, limit) == server(p))
      && (server(p) == Data([]) ==>
        Received(server, count, off, limit).Data? && |Received(server, count, off, limit).data| == p - off)
    decreases k
  {
    if k > 0 { FirstEnds(server, count, off + |Clamped(server(off).data, count)|, limit, k - 1); }
  }

  /** front, and then what arrives from there. */
  ghost function After(front: bytes, r: Answer): Answer {
    match r
    case Failed(e) => Failed(e)
    case Data(rest) => Data(front + rest)
  }

  lemma AfterMore(server: Server, count: nat, off: nat, limit: nat, front: bytes)
    requires Ends(server, limit)
    ensures After([], Received(server, count, off, limit)) == Received(server, count, off, limit)
    ensures server(off).Failed? ==> After(front, Received(server, count, off, limit)) == server(off)
    ensures server(off).Data? ==>
      var part := Clamped(server(off).data, count);
      if part == [] then After(front, Received(server, count, off, limit)) == Data(front)
      else
        var next := off + |part|;
        off < limit &&
        After(front, Received(server, count, off, limit)) == After(front + part, Received(server, count, next, limit))
  {
    var r := Received(server, count, off, limit);
    if r.Data? {
      assert [] + r.data == r.data && front + [] == front;
      if server(off).Data? && Clamped(server(off).data, count) != [] {
        var part := Clamped(server(off).data, count);
        Assoc(front, part, Received(server, count, off + |part|, limit).data);
      }
    }
  }

  method CopyTo(p: array<byte>, at: nat, data: bytes)
    requires at + |data| <= p.Length
    modifies p
    ensures p[..at + |data|] == old(p[..at]) + data
  {
    forall i | 0 <= i < |data| { p[at + i] := data[i]; }
  }

  method Grow(p: array<byte>, ts: nat) returns (newp: array<byte>)
    requires ts <= p.Length
    ensures fresh(newp) && newp.Length == ts + DIRMAX && newp[..ts] == p[..ts]
  {
    newp := new byte[ts + DIRMAX];
    assert newp[..0] == [];
    CopyTo(newp, 0, p[..ts]);
  }

  /** The buffer is grown by DIRMAX in front of every read. */
  method Gather(server: Server, msize: nat, ghost limit: nat) returns (e: nat, p: array<byte>, ts: nat)
    requires msize > IOHDRSZ && Ends(server, limit)
    ensures var r := Received(server, Count(msize), 0, limit);
      if r.Failed? then e == r.e else e == 0 && ts + DIRMAX <= p.Length && p[..ts] == r.data
    ensures fresh(p)
  {
    p, ts := new byte[0], 0;
    var count := Count(msize);
    ghost var front: bytes := [];
    ghost var all := Received(server, count, 0, limit);
    AfterMore(server, count, 0, limit, []);
    while true
      invariant ts <= p.Length && front == p[..ts] && fresh(p)
      invariant After(front, Received(server, count, ts, limit)) == all
      decreases limit - ts
    {
      AfterMore(server, count, ts, limit, front);
      p := Grow(p, ts);
      match server(ts)
      case Failed(err) => return err, p, ts;
      case Data(data) =>
        var part := Clamped(data, count);
        CopyTo(p, ts, part);
        if |part| == 0 { return 0, p, ts; }
        front := front + part;
        ts := ts + |part|;
    }
  }

  /** What comes of the bytes of a directory: one struct an entry, or EBADRPC and none. */
  ghost predicate Package(all: bytes, e: nat, ds: seq<Dir>, blank: Dir, dotu: bool) {
    if Entries(all, dotu).None? then e == EBADRPC && ds == []
    else e == 0 && |ds| == |Entries(all, dotu).value| && AllUnpack(Entries(all, dotu).value, ds, blank, dotu)
  }

  method Readdirs(server: Server, msize: nat, blank: Dir, dotu: bool, ghost limit: nat) returns (e: nat, ds: seq<Dir>)
    requires msize > IOHDRSZ && Ends(server, limit)
    ensures Received(server, Count(msize), 0, limit).Failed? ==>
      e == Received(server, Count(msize), 0, limit).e && ds == []
    ensures Received(server, Count(msize), 0, limit).Data? ==>
      Package(Received(server, Count(msize), 0, limit).data, e, ds, blank, dotu)
  {
    var p, ts;
    e, p, ts := Gather(server, msize, limit);
    if e != 0 { return e, []; }
    var strs;
    e, ds, strs := Dirpackage(p, ts, blank, dotu);
  }

  /** A directory served as one stream is read as exactly the list it holds, in order, however it is cut:
      the stream arrives whole, is accepted, and whatever readdirs_9p unpacks from it is that list. */
  lemma ReaddirsFaithful(server: Server, msize: nat, blank: Dir, dotu: bool, limit: nat, ds: seq<Dir>, es: seq<Dir>)
    requires msize > IOHDRSZ && Ends(server, limit) && AllSendable(ds, dotu)
    requires Honest(server, Concat(Wires(ds, dotu)))
    ensures var r := Received(server, Count(msize), 0, limit);
      && r == Data(Concat(Wires(ds, dotu)))
      && Entries(r.data, dotu).Some?
      && (|es| == |Entries(r.data, dotu).value| && AllUnpack(Entries(r.data, dotu).value, es, blank, dotu) ==>
        SameDirs(ds, es, dotu))
  {
    var stream := Concat(Wires(ds, dotu));
    ReceivesAll(server, stream, Count(msize), 0, limit);
    assert stream[0..] == stream;
    StreamUnpacks(ds, es, blank, dotu);
  }
}
