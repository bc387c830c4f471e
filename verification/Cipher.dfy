/** encrypt_9p and decrypt_9p of kext/crypt.c: an eight-byte window that slides over the buffer in
    steps of seven and, when the length asks for it, a last window flush with the end. */
module Cipher {
  import opened BlockCipher
  import opened Feistel
  import opened KeySchedule
  import opened Sequences

  /** Everything the source holds in tables: the S-boxes and keyexpand. */
  datatype Tables = Tables(boxes: Boxes, kx: KeyTable)

  // ----- windows -----

  type BlockMap = Text -> Text

  /** What is done to a buffer at one window offset. */
  type Window9 = (seq<bv8>, nat) -> seq<bv8>

  /** f applied to the eight bytes at off, if there are that many. */
  function At(f: BlockMap, s: seq<bv8>, off: nat): (r: seq<bv8>)
    ensures |r| == |s|
  {
    if off + 8 <= |s| then Splice(s, off, f(TextOf(s[off..off + 8]))) else s
  }

  function AtOf(f: BlockMap): Window9 { (s: seq<bv8>, off: nat) => At(f, s, off) }

  /** The window operation at the first n of the given offsets, one after the other. */
  function Run(at: Window9, offs: seq<nat>, s: seq<bv8>, n: nat): seq<bv8>
    requires n <= |offs|
  {
    if n == 0 then s else at(Run(at, offs, s, n - 1), offs[n - 1])
  }

  ghost predicate Undoes(g: BlockMap, f: BlockMap) { forall t :: g(f(t)) == t }

  lemma SpliceIs(s: seq<bv8>, off: nat, t: Text, u: Text)
    requires off + 8 <= |s|
    ensures TextOf(Splice(s, off, t)[off..off + 8]) == t
    ensures Splice(Splice(s, off, t), off, u) == Splice(s, off, u)
    ensures Splice(s, off, TextOf(s[off..off + 8])) == s
  {
    assert Splice(s, off, t)[off..off + 8] == BytesOf(t);
    assert BytesOf(TextOf(s[off..off + 8])) == s[off..off + 8];
  }

  lemma AtUndone(f: BlockMap, g: BlockMap, s: seq<bv8>, off: nat)
    requires Undoes(g, f)
    ensures At(g, At(f, s, off), off) == s
  {
    if off + 8 <= |s| {
      var t := TextOf(s[off..off + 8]);
      SpliceIs(s, off, f(t), t);
    }
  }

  /** The windows overlap, so an inverse has to take them back last first. */
  lemma {:induction false} RunUndone(at: Window9, ta: Window9, offs: seq<nat>, s: seq<bv8>, n: nat)
    requires n <= |offs| && forall u, o :: ta(at(u, o), o) == u
    ensures Run(ta, Reverse(offs), Run(at, offs, s, |offs|), n) == Run(at, offs, s, |offs| - n)
  {
    if n > 0 {
      RunUndone(at, ta, offs, s, n - 1);
    }
  }

  lemma {:induction false} RunLength(f: BlockMap, offs: seq<nat>, s: seq<bv8>, n: nat)
    requires n <= |offs|
    ensures |Run(AtOf(f), offs, s, n)| == |s|
  {
    if n > 0 { RunLength(f, offs, s, n - 1); }
  }

  function Windows(n: nat): (offs: seq<nat>)
    requires n >= 8
    ensures Listed(offs, n)
  {
    seq((n - 1) / 7, i requires 0 <= i => 7 * i) + if (n - 1) % 7 != 0 then [n - 8] else []
  }

  /** Offsets 0, 7, 14, ... as long as a whole window fits, then one more if bytes are left over. */
  ghost predicate Listed(w: seq<nat>, n: nat) {
    && n >= 8
    && |w| == (n - 1) / 7 + (if (n - 1) % 7 != 0 then 1 else 0)
    && (forall i :: 0 <= i < (n - 1) / 7 ==> w[i] == 7 * i)
    && ((n - 1) % 7 != 0 ==> w[(n - 1) / 7] == n - 8)
  }

  /** The same with the quotient and the remainder that the source computes. */
  ghost predicate Slides(w: seq<nat>, q: nat, r: nat) {
    && |w| == q + (if r != 0 then 1 else 0)
    && (forall i :: 0 <= i < q ==> w[i] == 7 * i)
    && (r != 0 ==> q > 0 && w[q] == 7 * q - 7 + r)
  }

  lemma ListedSlides(w: seq<nat>, n: nat, q: nat, r: nat)
    requires Listed(w, n) && q == (n - 1) / 7 && r == (n - 1) % 7
    ensures Slides(w, q, r) && n == 7 * q + r + 1 && r < 7 && q > 0
  {}

  /** Every byte of the buffer lies in some window, and every window in the buffer. */
  lemma WindowsCover(n: nat, p: nat)
    requires n >= 8 && p < n
    ensures exists i :: 0 <= i < |Windows(n)| && Windows(n)[i] <= p < Windows(n)[i] + 8
    ensures forall i :: 0 <= i < |Windows(n)| ==> Windows(n)[i] + 8 <= n
  {
    var q := (n - 1) / 7;
    if p / 7 < q { assert Windows(n)[p / 7] == 7 * (p / 7); }
    else if (n - 1) % 7 != 0 { assert Windows(n)[q] <= p; }
    else { assert Windows(n)[q - 1] <= p; }
  }

  /** Each window starts at the last byte of the one before; only the last one starts as far back as it takes to end
      with the buffer. */
  lemma WindowsSlide(n: nat)
    requires n >= 8
    ensures Windows(n) != [] && Windows(n)[0] == 0 && Windows(n)[|Windows(n)| - 1] == n - 8
    ensures forall i :: 0 <= i < |Windows(n)| - 1 ==>
      Windows(n)[i + 1] == if Windows(n)[i] + 15 <= n then Windows(n)[i] + 7 else n - 8
  {}

  // ----- encryption and decryption -----

  function BlockMapOf(b: Boxes, ks: seq<RoundKey>): BlockMap { (t: Text) => Block(b, ks, t) }

  /** Encryption and decryption of a buffer under round keys ks; below eight bytes neither does anything. */
  function EncryptedBy(b: Boxes, ks: seq<RoundKey>, s: seq<bv8>): seq<bv8> {
    if |s| < 8 then s else Run(AtOf(BlockMapOf(b, ks)), Windows(|s|), s, |Windows(|s|)|)
  }

  function DecryptedBy(b: Boxes, ks: seq<RoundKey>, s: seq<bv8>): seq<bv8> {
    if |s| < 8 then s else Run(AtOf(BlockMapOf(b, Reverse(ks))), Reverse(Windows(|s|)), s, |Windows(|s|)|)
  }

  function KeysOf(tb: Tables, key: Key): seq<RoundKey> { RoundKeys(Expand(tb.kx, key), false) }
  function Encrypted(tb: Tables, key: Key, s: seq<bv8>): seq<bv8> { EncryptedBy(tb.boxes, KeysOf(tb, key), s) }
  function Decrypted(tb: Tables, key: Key, s: seq<bv8>): seq<bv8> { DecryptedBy(tb.boxes, KeysOf(tb, key), s) }

  // ----- encryption, window by window -----

  lemma {:induction false} RunFirst(at: Window9, o: nat, offs: seq<nat>, s: seq<bv8>, n: nat)
    requires n <= |offs|
    ensures Run(at, [o] + offs, s, n + 1) == Run(at, offs, at(s, o), n)
  {
    if n > 0 { RunFirst(at, o, offs, s, n - 1); }
  }

  lemma AtBehind(f: BlockMap, a: seq<bv8>, u: seq<bv8>, o: nat)
    ensures At(f, a + u, |a| + o) == a + At(f, u, o)
  {
    if o + 8 <= |u| {
      assert (a + u)[|a| + o..|a| + o + 8] == u[o..o + 8];
      var t := f(TextOf(u[o..o + 8]));
      assert Splice(a + u, |a| + o, t) == a + Splice(u, o, t);
    }
  }

  /** offs, further back by n. */
  function Later(offs: seq<nat>, n: nat): (r: seq<nat>)
    ensures |r| == |offs|
  {
    seq(|offs|, i requires 0 <= i < |offs| => n + offs[i])
  }

  lemma {:induction false} RunBehind(f: BlockMap, a: seq<bv8>, offs: seq<nat>, u: seq<bv8>, n: nat)
    requires n <= |offs|
    ensures Run(AtOf(f), Later(offs, |a|), a + u, n) == a + Run(AtOf(f), offs, u, n)
  {
    if n > 0 {
      RunBehind(f, a, offs, u, n - 1);
      var o, v := offs[n - 1], Run(AtOf(f), offs, u, n - 1);
      assert Later(offs, |a|)[n - 1] == |a| + o;
      AtBehind(f, a, v, o);
      assert AtOf(f)(a + v, |a| + o) == At(f, a + v, |a| + o) && AtOf(f)(v, o) == At(f, v, o);
    }
  }

  lemma WindowsBehind(n: nat)
    requires n >= 15
    ensures Windows(n) == [0] + Later(Windows(n - 7), 7)
  {
    assert (n - 1) / 7 == 1 + (n - 8) / 7 && (n - 1) % 7 == (n - 8) % 7;
    var w, v := Windows(n), [0] + Later(Windows(n - 7), 7);
    forall i | 0 <= i < |w| ensures w[i] == v[i] {
      if i > 0 { assert v[i] == 7 + Windows(n - 7)[i - 1]; }
    }
  }

  /** The first window of a buffer ciphered. */
  function FirstDone(b: Boxes, ks: seq<RoundKey>, s: seq<bv8>): (r: seq<bv8>)
    requires |s| >= 8
    ensures |r| == |s|
  {
    BytesOf(Block(b, ks, TextOf(s[..8]))) + s[8..]
  }

  lemma FirstIs(b: Boxes, ks: seq<RoundKey>, s: seq<bv8>)
    requires |s| >= 8
    ensures At(BlockMapOf(b, ks), s, 0) == FirstDone(b, ks, s)
  {
    assert s[0..8] == s[..8] && s[..0] == [];
  }

  /** One block is enciphered as it is. */
  lemma EncryptsBlock(b: Boxes, ks: seq<RoundKey>, s: seq<bv8>)
    requires |s| == 8
    ensures EncryptedBy(b, ks, s) == BytesOf(Block(b, ks, TextOf(s)))
  {
    var at := AtOf(BlockMapOf(b, ks));
    assert Windows(8) == [0];
    assert Run(at, [0], s, 1) == at(Run(at, [0], s, 0), 0);
    FirstIs(b, ks, s);
    assert s[..8] == s;
  }

  /** Up to fourteen bytes: the first eight, and then the last eight as they are by then. */
  lemma EncryptsTwice(b: Boxes, ks: seq<RoundKey>, s: seq<bv8>)
    requires 8 < |s| < 15
    ensures var t, o := FirstDone(b, ks, s), |s| - 8;
      EncryptedBy(b, ks, s) == t[..o] + BytesOf(Block(b, ks, TextOf(t[o..])))
  {
    var at, o := AtOf(BlockMapOf(b, ks)), |s| - 8;
    assert Windows(|s|) == [0, o];
    assert Run(at, [0, o], s, 1) == at(Run(at, [0, o], s, 0), 0);
    FirstIs(b, ks, s);
    assert FirstDone(b, ks, s)[o..o + 8] == FirstDone(b, ks, s)[o..];
  }

  /** From fifteen on: the first eight, and then all but the first seven. */
  lemma EncryptsOn(b: Boxes, ks: seq<RoundKey>, s: seq<bv8>)
    requires |s| >= 15
    ensures var t := FirstDone(b, ks, s); EncryptedBy(b, ks, s) == t[..7] + EncryptedBy(b, ks, t[7..])
  {
    var f, w, t := BlockMapOf(b, ks), Windows(|s| - 7), FirstDone(b, ks, s);
    WindowsBehind(|s|);
    RunFirst(AtOf(f), 0, Later(w, 7), s, |w|);
    FirstIs(b, ks, s);
    assert t == t[..7] + t[7..];
    RunBehind(f, t[..7], w, t[7..], |w|);
  }

  /** encrypt_9p enciphers under the round keys in the order of the expanded key. */
  lemma EncryptsUnder(tb: Tables, key: Key, s: seq<bv8>)
    ensures Encrypted(tb, key, s) == EncryptedBy(tb.boxes, KeysOf(tb, key), s)
    ensures Placed(Expand(tb.kx, key), false, KeysOf(tb, key))
    ensures |s| < 8 ==> Encrypted(tb, key, s) == s
  {
    RoundKeysPlaced(Expand(tb.kx, key), false);
  }

  lemma ReverseTwice<T>(s: seq<T>)
    ensures Reverse(Reverse(s)) == s
  {}

  lemma BlockMapUndone(b: Boxes, ks: seq<RoundKey>)
    ensures Undoes(BlockMapOf(b, Reverse(ks)), BlockMapOf(b, ks))
  {
    forall t: Text ensures BlockMapOf(b, Reverse(ks))(BlockMapOf(b, ks)(t)) == t {
      BlockInverse(b, ks, t);
    }
  }

  lemma WindowUndone(f: BlockMap, g: BlockMap)
    requires Undoes(g, f)
    ensures forall u, o :: AtOf(g)(AtOf(f)(u, o), o) == u
  {
    forall u: seq<bv8>, o: nat ensures AtOf(g)(AtOf(f)(u, o), o) == u { AtUndone(f, g, u, o); }
  }

  lemma DecryptedByUndoes(b: Boxes, ks: seq<RoundKey>, s: seq<bv8>)
    ensures DecryptedBy(b, ks, EncryptedBy(b, ks, s)) == s
  {
    if |s| >= 8 {
      var f, g := BlockMapOf(b, ks), BlockMapOf(b, Reverse(ks));
      BlockMapUndone(b, ks);
      WindowUndone(f, g);
      RunUndone(AtOf(f), AtOf(g), Windows(|s|), s, |Windows(|s|)|);
      RunLength(f, Windows(|s|), s, |Windows(|s|)|);
    }
  }

  lemma EncryptedByUndoes(b: Boxes, ks: seq<RoundKey>, s: seq<bv8>)
    ensures EncryptedBy(b, ks, DecryptedBy(b, ks, s)) == s
  {
    if |s| >= 8 {
      var f, g := BlockMapOf(b, ks), BlockMapOf(b, Reverse(ks));
      ReverseTwice(ks);
      ReverseTwice(Windows(|s|));
      BlockMapUndone(b, Reverse(ks));
      WindowUndone(g, f);
      RunUndone(AtOf(g), AtOf(f), Reverse(Windows(|s|)), s, |Windows(|s|)|);
      RunLength(g, Reverse(Windows(|s|)), s, |Windows(|s|)|);
    }
  }

  /** For every key, every S-box contents and every buffer of any length. */
  lemma DecryptUndoesEncrypt(tb: Tables, key: Key, s: seq<bv8>)
    ensures Decrypted(tb, key, Encrypted(tb, key, s)) == s
  {
    DecryptedByUndoes(tb.boxes, KeysOf(tb, key), s);
  }

  lemma EncryptUndoesDecrypt(tb: Tables, key: Key, s: seq<bv8>)
    ensures Encrypted(tb, key, Decrypted(tb, key, s)) == s
  {
    EncryptedByUndoes(tb.boxes, KeysOf(tb, key), s);
  }

  lemma EncryptedLength(tb: Tables, key: Key, s: seq<bv8>)
    ensures |Encrypted(tb, key, s)| == |s| && |Decrypted(tb, key, s)| == |s|
  {
    if |s| >= 8 {
      RunLength(BlockMapOf(tb.boxes, KeysOf(tb, key)), Windows(|s|), s, |Windows(|s|)|);
      RunLength(BlockMapOf(tb.boxes, Reverse(KeysOf(tb, key))), Reverse(Windows(|s|)), s, |Windows(|s|)|);
    }
  }

  // ----- complementation -----

  function NotBytes(s: seq<bv8>): (r: seq<bv8>)
    ensures |r| == |s|
  {
    seq(|s|, i requires 0 <= i < |s| => !s[i])
  }

  lemma TextComplement(w: Window)
    ensures TextOf(NotBytes(w)) == NotText(TextOf(w))
  {}

  lemma BytesOfText(w: Window)
    ensures BytesOf(TextOf(w)) == w
  {}

  lemma NotBytesJoin(s: seq<bv8>, t: seq<bv8>)
    ensures NotBytes(s + t) == NotBytes(s) + NotBytes(t)
  {}

  lemma NotBytesPart(s: seq<bv8>, a: nat, b: nat)
    requires a <= b <= |s|
    ensures NotBytes(s)[a..b] == NotBytes(s[a..b])
  {}

  lemma SpliceComplement(s: seq<bv8>, off: nat, t: Text)
    requires off + 8 <= |s|
    ensures Splice(NotBytes(s), off, NotText(t)) == NotBytes(Splice(s, off, t))
  {
    var w := BytesOf(t);
    TextComplement(w);
    BytesOfText(NotBytes(w));
    NotBytesPart(s, 0, off);
    NotBytesPart(s, off + 8, |s|);
    assert s[0..off] == s[..off] && NotBytes(s)[0..off] == NotBytes(s)[..off];
    assert s[off + 8..|s|] == s[off + 8..] && NotBytes(s)[off + 8..|s|] == NotBytes(s)[off + 8..];
    NotBytesJoin(s[..off], w);
    NotBytesJoin(s[..off] + w, s[off + 8..]);
  }

  ghost predicate Commutes(f: BlockMap, g: BlockMap) { forall t :: g(NotText(t)) == NotText(f(t)) }

  lemma AtComplement(f: BlockMap, g: BlockMap, s: seq<bv8>, off: nat)
    requires Commutes(f, g)
    ensures At(g, NotBytes(s), off) == NotBytes(At(f, s, off))
  {
    if off + 8 <= |s| {
      var w := s[off..off + 8];
      assert NotBytes(s)[off..off + 8] == NotBytes(w);
      TextComplement(w);
      SpliceComplement(s, off, f(TextOf(w)));
    }
  }

  lemma {:induction false} RunComplement(f: BlockMap, g: BlockMap, offs: seq<nat>, s: seq<bv8>, n: nat)
    requires n <= |offs| && Commutes(f, g)
    ensures Run(AtOf(g), offs, NotBytes(s), n) == NotBytes(Run(AtOf(f), offs, s, n))
  {
    if n > 0 {
      RunComplement(f, g, offs, s, n - 1);
      AtComplement(f, g, Run(AtOf(f), offs, s, n - 1), offs[n - 1]);
    }
  }

  lemma EncryptedByComplement(b: Boxes, ks: seq<RoundKey>, js: seq<RoundKey>, s: seq<bv8>)
    requires OppositeKeys(ks, js)
    ensures EncryptedBy(b, js, NotBytes(s)) == NotBytes(EncryptedBy(b, ks, s))
  {
    if |s| >= 8 {
      forall t: Text ensures BlockMapOf(b, js)(NotText(t)) == NotText(BlockMapOf(b, ks)(t)) {
        BlockComplement(b, ks, js, t);
      }
      RunComplement(BlockMapOf(b, ks), BlockMapOf(b, js), Windows(|s|), s, |Windows(|s|)|);
    }
  }

  /** Complementing every bit of key and buffer complements every bit of the output. */
  lemma EncryptComplement(tb: Tables, key: Key, yek: Key, s: seq<bv8>)
    requires DrivenOnce(tb.kx) && OppositeBytes(key, yek)
    ensures Encrypted(tb, yek, NotBytes(s)) == NotBytes(Encrypted(tb, key, s))
  {
    ExpandComplement(tb.kx, key, yek);
    RoundKeysComplement(Expand(tb.kx, key), Expand(tb.kx, yek));
    EncryptedByComplement(tb.boxes, KeysOf(tb, key), KeysOf(tb, yek), s);
  }

  // ----- encrypt_9p and decrypt_9p, in place -----

  method OneRound(f: RoundFunction, left: bv32, right: bv32, k: RoundKey) returns (left': bv32, right': bv32)
    ensures Halves(left', right') == Step(f, Halves(left, right), k)
  {
    var crypto := f(right, k);
    var temp := left;
    left' := right;
    right' := temp ^ crypto;
  }

  /** The sixteen rounds with round keys ks, which the moving key finds in ek. */
  method RoundLoop(f: RoundFunction, ek: array<bv6>, low: bv32, high: bv32, decrypting: bool, ghost ks: seq<RoundKey>)
    returns (left: bv32, right: bv32)
    requires ek.Length == 128 && Placed(ek[..], decrypting, ks)
    ensures Halves(left, right) == Rounds(f, ks, Halves(low, high), 16)
  {
    left, right := low, high;
    var key := if decrypting then 128 - 8 else 0;
    var keyOffset := if decrypting then 16 else 0;
    for i := 0 to 16
      invariant key == if decrypting then 120 - 8 * i else 8 * i
      invariant Halves(left, right) == Rounds(f, ks, Halves(low, high), i)
    {
      assert key == Place(decrypting, i);
      assert ks[i] == ek[..][key..key + 8] == ek[key..key + 8];
      left, right := OneRound(f, left, right, ek[key..key + 8]);
      key := key + 8 - keyOffset;
    }
  }

  method SixteenRounds(f: RoundFunction, ek: array<bv6>, low: bv32, high: bv32, decrypting: bool)
      returns (left: bv32, right: bv32)
    requires ek.Length == 128
    ensures Halves(left, right) == Rounds(f, RoundKeys(ek[..], decrypting), Halves(low, high), 16)
  {
    RoundKeysPlaced(ek[..], decrypting);
    left, right := RoundLoop(f, ek, low, high, decrypting, RoundKeys(ek[..], decrypting));
  }

  method BlockCipherLoop(b: Boxes, ek: array<bv6>, text: array<bv8>, off: nat, decrypting: bool)
    requires ek.Length == 128 && off + 8 <= text.Length
    modifies text
    ensures text[..] == At(BlockMapOf(b, RoundKeys(ek[..], decrypting)), old(text[..]), off)
  {
    var low := IpLowLoop(text, off);
    var high := IpHighLoop(text, off);
    var left, right := SixteenRounds(RoundFunctionOf(b), ek, low, high, decrypting);
    FinalPermutation(right, left, text, off);
    assert old(text[..])[off..off + 8] == old(text[off..off + 8]);
  }

  lemma SpliceWithin(s: seq<bv8>, off: nat, n: nat, o: nat, t: Text)
    requires off + n <= |s| && o + 8 <= n
    ensures Splice(s, off + o, t)[off..off + n] == Splice(s[off..off + n], o, t)
    ensures Around(Splice(s, off + o, t), off, n) == Around(s, off, n)
  {
    var u, v := Splice(s, off + o, t), Splice(s[off..off + n], o, t);
    forall i | 0 <= i < n ensures u[off + i] == v[i] {
      if o <= i < o + 8 { assert u[off + i] == BytesOf(t)[i - o] && v[i] == BytesOf(t)[i - o]; }
    }
    assert u[off..off + n] == v;
    assert u[..off] == s[..off] && u[off + n..] == s[off + n..];
  }

  lemma AtWithin(f: BlockMap, s: seq<bv8>, off: nat, n: nat, o: nat)
    requires off + n <= |s| && o + 8 <= n
    ensures At(f, s, off + o)[off..off + n] == At(f, s[off..off + n], o)
    ensures Around(At(f, s, off + o), off, n) == Around(s, off, n)
  {
    var at, w := off + o, s[off..off + n];
    SubSlice(s, off, off + n, o, o + 8);
    var text := s[at..at + 8];
    assert w[o..o + 8] == text;
    SpliceWithin(s, off, n, o, f(TextOf(text)));
    assert At(f, s, at) == Splice(s, at, f(TextOf(text))) && At(f, w, o) == Splice(w, o, f(TextOf(text)));
  }

  /** at is the block cipher under round keys ks at one window, looked into only where a block is ciphered. */
  ghost predicate Computes(at: Window9, b: Boxes, ks: seq<RoundKey>) {
    forall s, o {:trigger At(BlockMapOf(b, ks), s, o)} :: at(s, o) == At(BlockMapOf(b, ks), s, o)
  }

  /** All but buf[off..off + n], which the source's pointer and length delimit. */
  function Around(s: seq<bv8>, off: nat, n: nat): (seq<bv8>, seq<bv8>)
    requires off + n <= |s|
  {
    (s[..off], s[off + n..])
  }

  lemma WindowStep(at: Window9, b: Boxes, ks: seq<RoundKey>, s: seq<bv8>, s': seq<bv8>, off: nat, n: nat, o: nat)
    requires off + n <= |s| && o + 8 <= n && Computes(at, b, ks) && s' == At(BlockMapOf(b, ks), s, off + o)
    ensures Around(s', off, n) == Around(s, off, n)
    ensures s'[off..off + n] == at(s[off..off + n], o)
  {
    AtWithin(BlockMapOf(b, ks), s, off, n, o);
  }

  /** One window of the buffer buf[off..off + n]; everything else stays as it is. */
  method CipherWindow(b: Boxes, ek: array<bv6>, buf: array<bv8>, off: nat, n: nat, o: nat, decrypting: bool,
      ghost at: Window9)
    requires ek.Length == 128 && off + n <= buf.Length && o + 8 <= n && Computes(at, b, RoundKeys(ek[..], decrypting))
    modifies buf
    ensures Around(buf[..], off, n) == Around(old(buf[..]), off, n)
    ensures buf[off..off + n] == at(old(buf[off..off + n]), o)
  {
    BlockCipherLoop(b, ek, buf, off + o, decrypting);
    WindowStep(at, b, RoundKeys(ek[..], decrypting), old(buf[..]), buf[..], off, n, o);
    assert old(buf[..])[off..off + n] == old(buf[off..off + n]);
  }

  method EncryptWindows(b: Boxes, ek: array<bv6>, vbuf: array<bv8>, off: nat, n: nat, ghost at: Window9,
      ghost w: seq<nat>)
    requires ek.Length == 128 && off + n <= vbuf.Length && Listed(w, n) && Computes(at, b, RoundKeys(ek[..], false))
    modifies vbuf
    ensures Around(vbuf[..], off, n) == Around(old(vbuf[..]), off, n)
    ensures vbuf[off..off + n] == Run(at, w, old(vbuf[off..off + n]), |w|)
  {
    var r, q := (n - 1) % 7, (n - 1) / 7;
    ListedSlides(w, n, q, r);
    EncryptSlides(b, ek, vbuf, off, n, q, r, at, w);
  }

  method EncryptSlides(b: Boxes, ek: array<bv6>, vbuf: array<bv8>, off: nat, n: nat, q: nat, r: nat, ghost at: Window9,
      ghost w: seq<nat>)
    requires ek.Length == 128 && off + n <= vbuf.Length && Slides(w, q, r) && n == 7 * q + r + 1
    requires Computes(at, b, RoundKeys(ek[..], false))
    modifies vbuf
    ensures Around(vbuf[..], off, n) == Around(old(vbuf[..]), off, n)
    ensures vbuf[off..off + n] == Run(at, w, old(vbuf[off..off + n]), |w|)
  {
    ghost var s, around := vbuf[off..off + n], Around(vbuf[..], off, n);
    var buf := 0;
    for i := 0 to q
      invariant buf == 7 * i
      invariant Around(vbuf[..], off, n) == around
      invariant vbuf[off..off + n] == Run(at, w, s, i)
    {
      CipherWindow(b, ek, vbuf, off, n, buf, false, at);
      buf := buf + 7;
    }
    if r != 0 {
      CipherWindow(b, ek, vbuf, off, n, buf - 7 + r, false, at);
    }
  }

  method DecryptWindows(b: Boxes, ek: array<bv6>, vbuf: array<bv8>, off: nat, n: nat, ghost at: Window9,
      ghost w: seq<nat>, ghost v: seq<nat>)
    requires ek.Length == 128 && off + n <= vbuf.Length && Listed(w, n) && v == Reverse(w)
    requires Computes(at, b, RoundKeys(ek[..], true))
    modifies vbuf
    ensures Around(vbuf[..], off, n) == Around(old(vbuf[..]), off, n)
    ensures vbuf[off..off + n] == Run(at, v, old(vbuf[off..off + n]), |v|)
  {
    var r, q := (n - 1) % 7, (n - 1) / 7;
    ListedSlides(w, n, q, r);
    DecryptSlides(b, ek, vbuf, off, n, q, r, at, w, v);
  }

  method DecryptSlides(b: Boxes, ek: array<bv6>, vbuf: array<bv8>, off: nat, n: nat, q: nat, r: nat,
                       ghost at: Window9, ghost w: seq<nat>, ghost v: seq<nat>)
    requires ek.Length == 128 && off + n <= vbuf.Length && Slides(w, q, r) && n == 7 * q + r + 1 && v == Reverse(w)
    requires Computes(at, b, RoundKeys(ek[..], true))
    modifies vbuf
    ensures Around(vbuf[..], off, n) == Around(old(vbuf[..]), off, n)
    ensures vbuf[off..off + n] == Run(at, v, old(vbuf[off..off + n]), |v|)
  {
    ghost var s, around := vbuf[off..off + n], Around(vbuf[..], off, n);
    var buf := 7 * q;
    ghost var k := 0;
    if r != 0 {
      CipherWindow(b, ek, vbuf, off, n, buf - 7 + r, true, at);
      k := 1;
    }
    for i := 0 to q
      invariant buf == 7 * (q - i)
      invariant Around(vbuf[..], off, n) == around
      invariant vbuf[off..off + n] == Run(at, v, s, k + i)
    {
      buf := buf - 7;
      assert v[k + i] == w[q - 1 - i];
      CipherWindow(b, ek, vbuf, off, n, buf, true, at);
    }
  }

  lemma AtOfComputes(b: Boxes, ks: seq<RoundKey>)
    ensures Computes(AtOf(BlockMapOf(b, ks)), b, ks)
  {}

  /** The reversed key pointer makes the block cipher the one that DecryptedBy uses. */
  lemma ReversedComputes(tb: Tables, key: Key, s: seq<bv8>) returns (at: Window9, w: seq<nat>, v: seq<nat>)
    requires |s| >= 8
    ensures Computes(at, tb.boxes, RoundKeys(Expand(tb.kx, key), true)) && Listed(w, |s|) && v == Reverse(w)
    ensures Run(at, v, s, |v|) == Decrypted(tb, key, s)
  {
    w := Windows(|s|);
    v := Reverse(w);
    at := AtOf(BlockMapOf(tb.boxes, Reverse(KeysOf(tb, key))));
    RoundKeysReversed(Expand(tb.kx, key));
    AtOfComputes(tb.boxes, Reverse(KeysOf(tb, key)));
  }

  method Encrypt(tb: Tables, key: Key, vbuf: array<bv8>, off: nat, n: nat) returns (done: bool)
    requires off + n <= vbuf.Length
    modifies vbuf
    ensures done <==> n >= 8
    ensures Around(vbuf[..], off, n) == Around(old(vbuf[..]), off, n)
    ensures vbuf[off..off + n] == Encrypted(tb, key, old(vbuf[off..off + n]))
  {
    if n < 8 { return false; }
    var ekey := new bv6[128];
    KeySetup(tb.kx, key, ekey);
    ghost var ks := KeysOf(tb, key);
    AtOfComputes(tb.boxes, ks);
    EncryptWindows(tb.boxes, ekey, vbuf, off, n, AtOf(BlockMapOf(tb.boxes, ks)), Windows(n));
    return true;
  }

  method Decrypt(tb: Tables, key: Key, vbuf: array<bv8>, off: nat, n: nat) returns (done: bool)
    requires off + n <= vbuf.Length
    modifies vbuf
    ensures done <==> n >= 8
    ensures Around(vbuf[..], off, n) == Around(old(vbuf[..]), off, n)
    ensures vbuf[off..off + n] == Decrypted(tb, key, old(vbuf[off..off + n]))
  {
    if n < 8 { return false; }
    var ekey := new bv6[128];
    KeySetup(tb.kx, key, ekey);
    ghost var s := vbuf[off..off + n];
    ghost var at, w, v := ReversedComputes(tb, key, s);
    DecryptWindows(tb.boxes, ekey, vbuf, off, n, at, w, v);
    return true;
  }
}
