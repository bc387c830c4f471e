/** Where every part of a directory entry lies on the wire (section 5 of the Plan 9 Programmer's Manual, stat):
    the layout of Stat once more, without its fields. */
module StatPlaces {
  import opened Codec
  import opened Sequences
  import opened Stat
  import opened WirePlaces

  lemma SevenParts(s: bytes, n: bytes, a: bytes, b: bytes, c: bytes, d: bytes, e: bytes, f: bytes, g: bytes,
      rest: bytes)
    requires s == n + ((a + b + c + d + e + f + g) + rest)
    requires |n| == 2 && |a| == 2 && |b| == 4 && |c| == 13 && |d| == 4 && |e| == 4 && |f| == 4 && |g| == 8
    ensures s[0..2] == n && s[2..4] == a && s[4..8] == b && s[8..21] == c && s[21..25] == d && s[25..29] == e &&
      s[29..33] == f && s[33..41] == g && s[41..] == rest
  {}

  /** size[2] type[2] dev[4] qid[13] mode[4] atime[4] mtime[4] length[8], and then what FixedBytes leaves. */
  lemma NumbersLie(d: Dir, dotu: bool, s: bytes)
    requires s == StatWire(d, dotu)
    ensures |s| >= 41 && s[0..2] == LE(|s| - 2, 2) && s[2..4] == LE(d.typ, 2) && s[4..8] == LE(d.dev, 4)
    ensures QidLies(s, 8, d.qid) && s[21..25] == LE(d.mode, 4) && s[25..29] == LE(d.atime, 4)
    ensures s[29..33] == LE(d.mtime, 4) && s[33..41] == LE(d.length, 8)
    ensures s[41..] == EncNames(Strings(d, dotu)) + TailBytes(d, dotu)
  {
    var names, tail := EncNames(Strings(d, dotu)), TailBytes(d, dotu);
    DirBytes(d, dotu);
    Assoc(FixedBytes(d), names, tail);
    SevenParts(s, LE(|s| - 2, 2), LE(d.typ, 2), LE(d.dev, 4), EncQid(d.qid), LE(d.mode, 4), LE(d.atime, 4),
               LE(d.mtime, 4), LE(d.length, 8), names + tail);
    QidBytes(s, 8, d.qid);
  }

  /** name[s] uid[s] gid[s] muid[s], and in .u extension[s], one behind the other; q is where they end. */
  lemma StringsLie(d: Dir, dotu: bool, s: bytes, names: seq<bytes>, q: nat)
    requires s == StatWire(d, dotu) && q == 41 + |EncNames(names)|
    requires names == if dotu then [d.name, d.uid, d.gid, d.muid, d.ext] else [d.name, d.uid, d.gid, d.muid]
    ensures q <= |s| && s[41..q] == EncNames(names) && s[q..] == TailBytes(d, dotu)
  {
    NumbersLie(d, dotu, s);
    assert names == Strings(d, dotu);
    Peel(s, 41, EncNames(names), TailBytes(d, dotu));
  }

  /** And in .u n_uid[4] n_gid[4] n_muid[4]. */
  lemma TailLies(d: Dir, s: bytes, q: nat)
    requires s == StatWire(d, true) && q == 41 + |EncNames([d.name, d.uid, d.gid, d.muid, d.ext])|
    ensures |s| == q + 12 && s[q..q + 4] == LE(d.uidnum, 4) && s[q + 4..q + 8] == LE(d.gidnum, 4) &&
      s[q + 8..q + 12] == LE(d.muidnum, 4)
  {
    StringsLie(d, true, s, [d.name, d.uid, d.gid, d.muid, d.ext], q);
    ThreeParts(s, q, LE(d.uidnum, 4), LE(d.gidnum, 4), LE(d.muidnum, 4));
  }

  lemma ThreeParts(s: bytes, q: nat, a: bytes, b: bytes, c: bytes)
    requires q <= |s| && s[q..] == a + b + c && |a| == |b| == |c| == 4
    ensures |s| == q + 12 && s[q..q + 4] == a && s[q + 4..q + 8] == b && s[q + 8..q + 12] == c
  {
    Assoc(a, b, c);
    Peel(s, q, a, b + c);
    Peel(s, q + 4, b, c);
  }

  /** Where convM2D stores the strings: number k behind the others and their terminators, with one of its own. */
  lemma {:induction false} StoredLies(ss: seq<bytes>, k: nat)
    requires k < |ss|
    ensures var s, p := Stored(ss), |Stored(ss[..k])|;
      p + |ss[k]| < |s| && s[p..p + |ss[k]|] == ss[k] && s[p + |ss[k]|] == 0 &&
      |Stored(ss[..k + 1])| == p + |ss[k]| + 1
    decreases |ss|
  {
    var n := |ss| - 1;
    assert ss[..k + 1][..k] == ss[..k];
    if k < n {
      StoredLies(ss[..n], k);
      assert ss[..n][..k] == ss[..k];
      var t, p := Stored(ss[..n]), |Stored(ss[..k])|;
      assert Stored(ss) == t + (ss[n] + [0]);
      assert Stored(ss)[p..p + |ss[k]|] == t[p..p + |ss[k]|];
    } else {
      assert ss[..k + 1] == ss;
    }
  }

  /** Outside .u the entry ends with its strings. */
  lemma NoTail(d: Dir, s: bytes)
    requires s == StatWire(d, false)
    ensures |s| == 41 + |EncNames([d.name, d.uid, d.gid, d.muid])|
  {
    StringsLie(d, false, s, [d.name, d.uid, d.gid, d.muid], 41 + |EncNames([d.name, d.uid, d.gid, d.muid])|);
  }
}
