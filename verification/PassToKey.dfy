/** passtokey_9p of kext/crypt.c: a password becomes a key. Eight characters at a time are packed
    seven bits each; every further window is first encrypted under the key so far. */
module PassToKey {
  import opened Feistel
  import opened KeySchedule
  import opened BlockCipher
  import opened Cipher

  const NAMELEN := 28

  /** Byte i of the key, out of characters i and i + 1 of a window. */
  function KeyByte(x: bv8, y: bv8, i: Place): bv8 { (x >> i) + (y << (7 - i)) }

  type Place = i: nat | i < 7
  type Packer = (bv8, bv8, Place) -> bv8

  function PackWith(f: Packer, w: Window): Key { seq(7, i requires 0 <= i < 7 => f(w[i], w[i + 1], i)) }

  function Pack(w: Window): Key { PackWith(KeyByte, w) }

  /** The bytes of the buffer that the source reads: the first 27 characters of the password, and for a
      password below eight characters its terminator and the spaces laid under it. */
  function Filled(p: seq<bv8>): (s: seq<bv8>)
    ensures 8 <= |s| < NAMELEN
  {
    var t := if |p| >= NAMELEN then p[..NAMELEN - 1] else p;
    if |t| < 8 then t + [0] + seq(7 - |t|, _ => 0x20) else t
  }

  /** Where the window goes next: eight further, or flush with the end. */
  function NextWindow(off: nat, n: nat): nat
    requires n >= 8
  {
    if off + 16 <= n then off + 8 else n - 8
  }

  function Enciphered(tb: Tables, key: Key, w: Window): Window {
    EncryptedLength(tb, key, w);
    Encrypted(tb, key, w)
  }

  // How the windows follow each other does not depend on the cipher.

  type Encipher = (Key, Window) -> Window
  type Packing = Window -> Key

  function EncipherOf(tb: Tables): Encipher { (key: Key, w: Window) => Enciphered(tb, key, w) }
  function PackingOf(): Packing { (w: Window) => Pack(w) }

  function Replaced(c: Encipher, key: Key, s: seq<bv8>, off: nat): (r: seq<bv8>)
    requires off + 8 <= |s|
    ensures |r| == |s|
  {
    s[..off] + c(key, s[off..off + 8]) + s[off + 8..]
  }

  function KeyWith(c: Encipher, pack: Packing, s: seq<bv8>, off: nat): Key
    requires off + 8 <= |s|
    decreases |s| - off
  {
    var key := pack(s[off..off + 8]);
    if off + 8 == |s| then key
    else
      var next := NextWindow(off, |s|);
      KeyWith(c, pack, Replaced(c, key, s, next), next)
  }

  function Reencrypted(tb: Tables, key: Key, s: seq<bv8>, off: nat): (r: seq<bv8>)
    requires off + 8 <= |s|
    ensures |r| == |s|
  {
    Replaced(EncipherOf(tb), key, s, off)
  }

  function KeyFrom(tb: Tables, s: seq<bv8>, off: nat): Key
    requires off + 8 <= |s|
  {
    KeyWith(EncipherOf(tb), PackingOf(), s, off)
  }

  function PasswordKey(tb: Tables, p: seq<bv8>): Key { KeyFrom(tb, Filled(p), 0) }

  method PackLoop(f: Packer, t: array<bv8>, off: nat) returns (key: Key)
    requires off + 8 <= t.Length
    ensures key == PackWith(f, t[off..off + 8])
  {
    key := [0, 0, 0, 0, 0, 0, 0];
    for i := 0 to DESKEYLEN
      invariant forall j :: 0 <= j < i ==> key[j] == f(t[off + j], t[off + j + 1], j)
    {
      key := key[i := f(t[off + i], t[off + i + 1], i)];
    }
  }

  method Fill(p: seq<bv8>, buf: array<bv8>) returns (n: nat)
    requires buf.Length == NAMELEN
    modifies buf
    ensures n == if |p| >= NAMELEN then NAMELEN - 1 else |p|
    ensures buf[..if n < 8 then 8 else n] == Filled(p)
  {
    n := |p|;
    if n >= NAMELEN { n := NAMELEN - 1; }
    forall i | 0 <= i < 8 { buf[i] := 0x20; }
    forall i | 0 <= i < n { buf[i] := p[i]; }
    buf[n] := 0;
  }

  lemma WindowReplaced(was: seq<bv8>, now: seq<bv8>, t: nat, total: nat)
    requires t + 8 <= total <= |was| == |now| && Around(now, t, 8) == Around(was, t, 8)
    ensures now[..total] == was[..total][..t] + now[t..t + 8] + was[..total][t + 8..]
  {
    assert was[..total][..t] == was[..t] && was[..total][t + 8..] == was[t + 8..][..total - t - 8];
    assert now[..total] == now[..t] + now[t..t + 8] + now[t + 8..][..total - t - 8];
  }

  method EncryptWindow(tb: Tables, key: Key, buf: array<bv8>, t: nat, ghost total: nat)
    requires t + 8 <= total <= buf.Length
    modifies buf
    ensures buf[..total] == Reencrypted(tb, key, old(buf[..total]), t)
  {
    ghost var was := buf[..];
    assert was[..total] == buf[..total] && was[..total][t..t + 8] == buf[t..t + 8];
    var done := Encrypt(tb, key, buf, t, 8);
    WindowReplaced(was, buf[..], t, total);
    assert buf[..][..total] == buf[..total] && buf[..][t..t + 8] == buf[t..t + 8];
  }

  method KeyOfWindow(buf: array<bv8>, t: nat, ghost total: nat) returns (key: Key)
    requires t + 8 <= total <= buf.Length
    ensures key == Pack(buf[..total][t..t + 8])
  {
    assert buf[..total][t..t + 8] == buf[t..t + 8];
    key := PackLoop(KeyByte, buf, t);
  }

  lemma KeyFromUnfold(tb: Tables, s: seq<bv8>, off: nat)
    requires off + 8 <= |s|
    ensures off + 8 == |s| ==> KeyFrom(tb, s, off) == Pack(s[off..off + 8])
    ensures off + 8 < |s| ==>
      var next := NextWindow(off, |s|);
      KeyFrom(tb, s, off) == KeyFrom(tb, Reencrypted(tb, Pack(s[off..off + 8]), s, next), next)
  {}

  /** Whatever buf holds beforehand. */
  method Passtokey(tb: Tables, p: seq<bv8>, buf: array<bv8>) returns (key: Key)
    requires buf.Length == NAMELEN
    modifies buf
    ensures key == PasswordKey(tb, p)
  {
    var n := Fill(p, buf);
    var t := 0;
    ghost var total := |Filled(p)|;
    while true
      invariant t + 8 <= total < NAMELEN
      invariant t + n == total || (t == 0 && n < 8 == total)
      invariant KeyFrom(tb, buf[..total], t) == PasswordKey(tb, p)
      decreases n
    {
      key := KeyOfWindow(buf, t, total);
      KeyFromUnfold(tb, buf[..total], t);
      if n <= 8 { return; }
      n := n - 8;
      t := t + 8;
      if n < 8 {
        t := t - (8 - n);
        n := 8;
      }
      EncryptWindow(tb, key, buf, t, total);
    }
  }

  // ----- how long passwords are used up -----

  lemma SlicesBehind(a: seq<bv8>, s: seq<bv8>, off: nat)
    requires off + 8 <= |s|
    ensures var x, y := a + s, |a| + off;
      x[y..y + 8] == s[off..off + 8] && x[..y] == a + s[..off] && x[y + 8..] == s[off + 8..]
  {}

  lemma Spliced(a: seq<bv8>, b: seq<bv8>, c: seq<bv8>, d: seq<bv8>)
    ensures (a + b) + c + d == a + (b + c + d)
  {}

  lemma ReplacedBehind(c: Encipher, key: Key, a: seq<bv8>, s: seq<bv8>, off: nat)
    requires off + 8 <= |s|
    ensures Replaced(c, key, a + s, |a| + off) == a + Replaced(c, key, s, off)
  {
    SlicesBehind(a, s, off);
    Spliced(a, s[..off], c(key, s[off..off + 8]), s[off + 8..]);
  }

  /** What lies in front of the window plays no part. */
  lemma {:induction false} KeyBehind(c: Encipher, pack: Packing, a: seq<bv8>, s: seq<bv8>, off: nat)
    requires off + 8 <= |s|
    ensures KeyWith(c, pack, a + s, |a| + off) == KeyWith(c, pack, s, off)
    decreases |s| - off
  {
    SlicesBehind(a, s, off);
    if off + 8 < |s| {
      var key, next := pack(s[off..off + 8]), NextWindow(off, |s|);
      ReplacedBehind(c, key, a, s, next);
      KeyBehind(c, pack, a, Replaced(c, key, s, next), next);
    }
  }

  /** Eight characters are packed as they are. */
  lemma KeyOfEight(c: Encipher, pack: Packing, s: Window)
    ensures KeyWith(c, pack, s, 0) == pack(s)
  {
    assert s[0..8] == s;
  }

  /** Up to fifteen: the last eight are enciphered under the key of the first eight, and packed. */
  lemma KeyOfTwo(c: Encipher, pack: Packing, s: seq<bv8>)
    requires 8 < |s| < 16
    ensures KeyWith(c, pack, s, 0) == pack(c(pack(s[..8]), s[|s| - 8..]))
  {
    var o, key := |s| - 8, pack(s[..8]);
    assert s[0..8] == s[..8] && s[o..o + 8] == s[o..];
    var t := Replaced(c, key, s, o);
    assert t[o..o + 8] == c(key, s[o..]);
    assert KeyWith(c, pack, t, o) == pack(t[o..o + 8]);
  }

  /** From sixteen on: the second eight are enciphered under the key of the first eight, and the password goes on with
      them in front. */
  lemma KeyOfMore(c: Encipher, pack: Packing, s: seq<bv8>)
    requires |s| >= 16
    ensures KeyWith(c, pack, s, 0) == KeyWith(c, pack, c(pack(s[..8]), s[8..16]) + s[16..], 0)
  {
    var key := pack(s[..8]);
    assert s[0..8] == s[..8];
    var t := c(key, s[8..16]) + s[16..];
    assert Replaced(c, key, s, 8) == s[..8] + t;
    KeyBehind(c, pack, s[..8], t, 0);
  }

  /** passtokey_9p does this to the filled buffer, with encrypt_9p and the packing of seven bits a character. */
  lemma PasswordKeyIs(tb: Tables, p: seq<bv8>, key: Key, w: Window)
    ensures PasswordKey(tb, p) == KeyWith(EncipherOf(tb), PackingOf(), Filled(p), 0)
    ensures EncipherOf(tb)(key, w) == Encrypted(tb, key, w) && PackingOf()(w) == Pack(w)
  {}

  /** Behind a short password lie its terminator and spaces up to eight characters; of a long one 27 count. */
  lemma FilledWith(p: seq<bv8>, i: nat)
    requires i < |Filled(p)|
    ensures |Filled(p)| == if |p| < 8 then 8 else if |p| > 27 then 27 else |p|
    ensures Filled(p)[i] == if i < |p| then p[i] else if i == |p| then 0 else 0x20
  {}

  // ----- what the key is -----

  predicate Seven(s: seq<bv8>) { forall i :: 0 <= i < |s| ==> s[i] < 0x80 }

  function Sum7(k0: bv8, k1: bv8, k2: bv8, k3: bv8, k4: bv8, k5: bv8, k6: bv8): bv64 {
    (k0 as bv64) + ((k1 as bv64) << 8) + ((k2 as bv64) << 16) + ((k3 as bv64) << 24)
    + ((k4 as bv64) << 32) + ((k5 as bv64) << 40) + ((k6 as bv64) << 48)
  }

  function Sum8(w0: bv8, w1: bv8, w2: bv8, w3: bv8, w4: bv8, w5: bv8, w6: bv8, w7: bv8): bv64 {
    (w0 as bv64) + ((w1 as bv64) << 7) + ((w2 as bv64) << 14) + ((w3 as bv64) << 21)
    + ((w4 as bv64) << 28) + ((w5 as bv64) << 35) + ((w6 as bv64) << 42) + ((w7 as bv64) << 49)
  }

  /** Little-endian value of the seven key bytes. */
  function Little(key: Key): bv64 { Sum7(key[0], key[1], key[2], key[3], key[4], key[5], key[6]) }

  /** The sum of w[j] * 128^j. */
  function Base128(w: Window): bv64 { Sum8(w[0], w[1], w[2], w[3], w[4], w[5], w[6], w[7]) }

  lemma BytesPacked(w0: bv8, w1: bv8, w2: bv8, w3: bv8, w4: bv8, w5: bv8, w6: bv8, w7: bv8)
    requires w0 < 0x80 && w1 < 0x80 && w2 < 0x80 && w3 < 0x80 && w4 < 0x80 && w5 < 0x80 && w6 < 0x80 && w7 < 0x80
    ensures Sum7((w0 >> 0) + (w1 << 7), (w1 >> 1) + (w2 << 6), (w2 >> 2) + (w3 << 5), (w3 >> 3) + (w4 << 4),
                 (w4 >> 4) + (w5 << 3), (w5 >> 5) + (w6 << 2), (w6 >> 6) + (w7 << 1))
         == Sum8(w0, w1, w2, w3, w4, w5, w6, w7)
  {}

  lemma KeyBytes(w: Window)
    ensures Pack(w)[0] == (w[0] >> 0) + (w[1] << 7) && Pack(w)[1] == (w[1] >> 1) + (w[2] << 6)
    ensures Pack(w)[2] == (w[2] >> 2) + (w[3] << 5) && Pack(w)[3] == (w[3] >> 3) + (w[4] << 4)
    ensures Pack(w)[4] == (w[4] >> 4) + (w[5] << 3) && Pack(w)[5] == (w[5] >> 5) + (w[6] << 2)
    ensures Pack(w)[6] == (w[6] >> 6) + (w[7] << 1)
  {}

  /** Eight seven-bit characters are packed without loss. */
  lemma PackValue(w: Window)
    requires Seven(w)
    ensures Little(Pack(w)) == Base128(w)
  {
    KeyBytes(w);
    BytesPacked(w[0], w[1], w[2], w[3], w[4], w[5], w[6], w[7]);
  }

  lemma Sum8Injective(v0: bv8, v1: bv8, v2: bv8, v3: bv8, v4: bv8, v5: bv8, v6: bv8, v7: bv8,
                      w0: bv8, w1: bv8, w2: bv8, w3: bv8, w4: bv8, w5: bv8, w6: bv8, w7: bv8)
    requires v0 < 0x80 && v1 < 0x80 && v2 < 0x80 && v3 < 0x80 && v4 < 0x80 && v5 < 0x80 && v6 < 0x80 && v7 < 0x80
    requires w0 < 0x80 && w1 < 0x80 && w2 < 0x80 && w3 < 0x80 && w4 < 0x80 && w5 < 0x80 && w6 < 0x80 && w7 < 0x80
    requires Sum8(v0, v1, v2, v3, v4, v5, v6, v7) == Sum8(w0, w1, w2, w3, w4, w5, w6, w7)
    ensures v0 == w0 && v1 == w1 && v2 == w2 && v3 == w3 && v4 == w4 && v5 == w5 && v6 == w6 && v7 == w7
  {}

  lemma Base128Injective(v: Window, w: Window)
    requires Seven(v) && Seven(w) && Base128(v) == Base128(w)
    ensures v == w
  {
    Sum8Injective(v[0], v[1], v[2], v[3], v[4], v[5], v[6], v[7], w[0], w[1], w[2], w[3], w[4], w[5], w[6], w[7]);
    assert v == [w[0], w[1], w[2], w[3], w[4], w[5], w[6], w[7]];
  }

  lemma FilledInjective(p: seq<bv8>, q: seq<bv8>)
    requires |p| <= 8 && |q| <= 8 && 0 !in p && 0 !in q && Filled(p) == Filled(q)
    ensures p == q
  {
    var s := Filled(p);
    assert |p| < 8 ==> s[|p|] == 0;
    assert |q| < 8 ==> s[|q|] == 0;
    assert forall i :: 0 <= i < |p| ==> s[i] == p[i] && p[i] in p;
    assert forall i :: 0 <= i < |q| ==> s[i] == q[i] && q[i] in q;
  }

  lemma PackInjective(v: Window, w: Window)
    requires Seven(v) && Seven(w) && Pack(v) == Pack(w)
    ensures v == w
  {
    PackValue(v);
    PackValue(w);
    Base128Injective(v, w);
  }

  lemma FilledSeven(p: seq<bv8>)
    requires Seven(p)
    ensures Seven(Filled(p))
  {}

  lemma ShortKey(tb: Tables, p: seq<bv8>)
    requires |p| <= 8
    ensures |Filled(p)| == 8 && PasswordKey(tb, p) == Pack(Filled(p))
  {
    assert Filled(p)[0..8] == Filled(p);
  }

  /** Two passwords of at most eight seven-bit characters never share a key. */
  lemma ShortPasswordsInjective(tb: Tables, p: seq<bv8>, q: seq<bv8>)
    requires |p| <= 8 && |q| <= 8 && Seven(p) && Seven(q) && 0 !in p && 0 !in q
    requires PasswordKey(tb, p) == PasswordKey(tb, q)
    ensures p == q
  {
    ShortKey(tb, p);
    ShortKey(tb, q);
    FilledSeven(p);
    FilledSeven(q);
    PackInjective(Filled(p), Filled(q));
    FilledInjective(p, q);
  }

  /** A password of at most eight characters, none of them NUL and none above most. */
  predicate ShortOver(most: bv8, p: seq<bv8>) {
    |p| <= 8 && 0 !in p && forall i :: 0 <= i < |p| ==> p[i] <= most
  }

  ghost predicate Distinguishes(tb: Tables, most: bv8) {
    forall p, q :: ShortOver(most, p) && ShortOver(most, q) && PasswordKey(tb, p) == PasswordKey(tb, q) ==> p == q
  }

  const SEVEN_ONES: seq<bv8> := [1, 1, 1, 1, 1, 1, 1]

  /** An eighth character of 0x80 leaves no trace: its only bit is shifted out. */
  lemma EighthCharacterLost(tb: Tables)
    ensures PasswordKey(tb, SEVEN_ONES) == PasswordKey(tb, SEVEN_ONES + [0x80])
  {
    var p, q := SEVEN_ONES, SEVEN_ONES + [0x80];
    ShortKey(tb, p);
    ShortKey(tb, q);
    assert Filled(p) == SEVEN_ONES + [0] && Filled(q) == q;
    KeyBytes(Filled(p));
    KeyBytes(Filled(q));
    assert Pack(Filled(p)) == Pack(Filled(q));
  }

  /** Short passwords over an alphabet never share a key exactly if all its characters have seven bits. */
  lemma SevenBitsExactly(tb: Tables, most: bv8)
    ensures Distinguishes(tb, most) <==> most < 0x80
  {
    if most < 0x80 {
      forall p, q | ShortOver(most, p) && ShortOver(most, q) && PasswordKey(tb, p) == PasswordKey(tb, q)
        ensures p == q
      {
        ShortPasswordsInjective(tb, p, q);
      }
    } else {
      var p, q := SEVEN_ONES, SEVEN_ONES + [0x80];
      EighthCharacterLost(tb);
      assert ShortOver(most, p) && ShortOver(most, q) && p != q;
    }
  }

  /** With eight-bit characters they can: the top bit of one character and the low bit of the next
      meet in one key bit. */
  lemma EighthBitCollides(tb: Tables)
    ensures PasswordKey(tb, [0xC1, 0x42]) == PasswordKey(tb, [0x41, 0x43])
  {
    var p, q: seq<bv8> := [0xC1, 0x42], [0x41, 0x43];
    ShortKey(tb, p);
    ShortKey(tb, q);
    KeyBytes(Filled(p));
    KeyBytes(Filled(q));
    assert Pack(Filled(p)) == Pack(Filled(q)) by {
      assert forall i :: 2 <= i < 8 ==> Filled(p)[i] == Filled(q)[i];
    }
  }
}
