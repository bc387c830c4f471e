/** The reading half of kext/fcall.c: a cursor over the receive buffer. Strings are moved one byte down
    inside the buffer, on top of their own counts, to make room for a terminator. */
module MessageReader {
  import opened Codec
  import opened Sequences

  datatype Result<T> = Ok(value: T) | Err {
    predicate IsFailure() { Err? }
    function PropagateFailure<U>(): Result<U>
      requires Err?
    {
      Err
    }
    function Extract(): T
      requires Ok?
    {
      value
    }
  }

  /** What a pointer in the decoded struct must lead to. */
  datatype Target = Target(s: bytes, terminated: bool)

  function NameTargets(names: seq<bytes>): (r: seq<Target>)
    ensures |r| == |names| && forall i :: 0 <= i < |r| ==> r[i] == Target(names[i], true)
  {
    seq(|names|, i requires 0 <= i < |names| => Target(names[i], true))
  }

  function TargetsOf(f: Field): seq<Target> {
    match f
    case Text(s) => [Target(s, true)]
    case Blob(_, s) => [Target(s, false)]
    case Names(names) => NameTargets(names)
    case _ => []
  }

  function Targets(fs: seq<Field>): seq<Target> {
    if fs == [] then [] else Targets(fs[..|fs| - 1]) + TargetsOf(fs[|fs| - 1])
  }

  function Extent(t: Target): nat { |t.s| + if t.terminated then 1 else 0 }

  /** The pointer at leads to t within the first p bytes. */
  ghost predicate Leads(s: bytes, p: nat, at: nat, t: Target)
    requires p <= |s|
  {
    && at + Extent(t) <= p
    && s[at..at + |t.s|] == t.s
    && (t.terminated ==> s[at + |t.s|] == 0)
  }

  /** The pointers stored into the decoded struct so far, and where they must lead. */
  datatype Trail = Trail(pointers: seq<nat>, ts: seq<Target>)

  function Longer(t: Trail, at: nat, to: Target): Trail { Trail(t.pointers + [at], t.ts + [to]) }

  ghost predicate AllLead(s: bytes, p: nat, trail: Trail)
    requires p <= |s|
  {
    match trail
    case Trail(pointers, ts) => |pointers| == |ts| && forall i :: 0 <= i < |ts| ==> Leads(s, p, pointers[i], ts[i])
  }

  lemma SamePrefix(s: bytes, t: bytes, p: nat, a: nat, b: nat)
    requires p <= |s| == |t| && t[..p] == s[..p] && a <= b <= p
    ensures t[a..b] == s[a..b] && (b < p ==> t[b] == s[b])
  {
    forall k | 0 <= k < p ensures t[k] == s[k] { assert t[..p][k] == t[k] && s[..p][k] == s[k]; }
  }

  lemma LeadKept(s: bytes, t: bytes, p: nat, p': nat, at: nat, to: Target)
    requires p <= p' <= |s| == |t| && t[..p] == s[..p] && Leads(s, p, at, to)
    ensures Leads(t, p', at, to)
  {
    SamePrefix(s, t, p, at, at + |to.s|);
  }

  /** Changing bytes from p on disturbs no pointer below. */
  lemma LeadsKept(s: bytes, t: bytes, p: nat, p': nat, trail: Trail)
    requires p <= p' <= |s| == |t| && t[..p] == s[..p] && AllLead(s, p, trail)
    ensures AllLead(t, p', trail)
  {
    var pointers, ts := trail.pointers, trail.ts;
    forall i | 0 <= i < |ts| ensures Leads(t, p', pointers[i], ts[i]) {
      LeadKept(s, t, p, p', pointers[i], ts[i]);
    }
  }

  lemma LeadsMore(s: bytes, p: nat, trail: Trail, at: nat, t: Target)
    requires p <= |s| && AllLead(s, p, trail) && Leads(s, p, at, t)
    ensures AllLead(s, p, Longer(trail, at, t))
  {}

  /** The bytes to come are untouched, and every pointer handed out leads to its string. */
  ghost predicate Reading(s: bytes, orig: bytes, start: nat, p: nat, ep: nat, trail: Trail) {
    match trail
    case Trail(_, _) => start <= p <= ep <= |s| == |orig| && s[p..] == orig[p..] && AllLead(s, p, trail)
  }

  lemma Skipped(s: bytes, orig: bytes, start: nat, p: nat, ep: nat, trail: Trail, n: nat)
    requires Reading(s, orig, start, p, ep, trail) && p + n <= ep
    ensures Reading(s, orig, start, p + n, ep, trail) && s[p..p + n] == orig[p..p + n]
  {
    assert s[p..p + n] == s[p..][..n] && orig[p..p + n] == orig[p..][..n];
    assert s[p + n..] == s[p..][n..] && orig[p + n..] == orig[p..][n..];
    LeadsKept(s, s, p, p + n, trail);
  }

  /** memmove(q, q + 1, n); q[n] = 0 */
  function MovedDown(s: bytes, q: nat, n: nat): (r: bytes)
    requires q + n < |s|
    ensures |r| == |s|
  {
    s[..q] + s[q + 1..q + n + 1] + [0] + s[q + n + 1..]
  }

  lemma MovedDownIs(s: bytes, q: nat, n: nat)
    requires q + n < |s|
    ensures MovedDown(s, q, n)[..q] == s[..q] && MovedDown(s, q, n)[q + n] == 0
    ensures MovedDown(s, q, n)[q..q + n] == s[q + 1..q + n + 1]
    ensures MovedDown(s, q, n)[q + n + 1..] == s[q + n + 1..]
  {}

  lemma StringPlaced(s: bytes, orig: bytes, start: nat, p: nat, ep: nat, trail: Trail, n: nat, q: nat, next: nat,
      str: bytes)
    requires Reading(s, orig, start, p, ep, trail) && q == p + 1 && next == p + 2 + n <= ep && str == orig[q + 1..next]
    ensures Reading(MovedDown(s, q, n), orig, start, next, ep, Longer(trail, q, Target(str, true)))
    ensures MovedDown(s, q, n)[q..q + n] == str
  {
    var t := MovedDown(s, q, n);
    MovedDownIs(s, q, n);
    Skipped(s, orig, start, p, ep, trail, 2 + n);
    assert s[p + 2..next] == s[p..next][2..] == orig[p + 2..next];
    assert t[..p] == t[..p + 1][..p] && s[..p] == s[..p + 1][..p];
    LeadsKept(s, t, p, next, trail);
    LeadsMore(t, next, trail, q, Target(str, true));
  }

  lemma TargetsAppend(fs: seq<Field>, f: Field)
    ensures Targets(fs + [f]) == Targets(fs) + TargetsOf(f)
  {
    assert (fs + [f])[..|fs|] == fs;
  }

  // ----- what is ahead -----

  ghost predicate Past(orig: bytes, start: nat, p: nat, done: seq<Field>) {
    start <= p <= |orig| && orig[start..p] == Encs(done) && AllFit(done)
  }

  ghost predicate Future(live: bool, todo: seq<Field>, orig: bytes, p: nat, ep: nat) {
    p <= ep <= |orig| && (live ==> Encs(todo) <= orig[p..ep] && AllFit(todo))
  }

  /** What happens to done and todo when f is read. */
  ghost predicate Took(f: Field, live: bool, done: seq<Field>, todo: seq<Field>, done': seq<Field>, todo': seq<Field>) {
    && done' == done + [f]
    && (live ==> todo != [] && todo[0] == f && todo' == todo[1..])
  }

  /** Reading f is what todo had in store. */
  lemma Ahead(live: bool, todo: seq<Field>, orig: bytes, p: nat, p': nat, ep: nat, f: Field)
    requires Future(live, todo, orig, p, ep) && (live ==> todo != [] && SameKind(todo[0], f))
    requires p <= p' <= ep && orig[p..p'] == Enc(f) && Fits(f)
    ensures live ==> todo[0] == f
    ensures Future(live, if live then todo[1..] else todo, orig, p', ep)
  {
    if live {
      SlicesAhead(orig, p, p', ep);
      AheadOne(todo, orig[p..ep], p' - p, f);
    }
  }

  lemma SlicesAhead(s: bytes, a: nat, b: nat, c: nat)
    requires a <= b <= c <= |s|
    ensures s[a..c][..b - a] == s[a..b] && s[a..c][b - a..] == s[b..c]
  {}

  lemma AheadOne(todo: seq<Field>, rest: bytes, n: nat, f: Field)
    requires Encs(todo) <= rest && AllFit(todo) && todo != [] && SameKind(todo[0], f)
    requires n <= |rest| && rest[..n] == Enc(f) && Fits(f)
    ensures todo[0] == f && Encs(todo[1..]) <= rest[n..] && AllFit(todo[1..])
  {
    var x, y := rest[|Encs(todo)|..], rest[n..];
    Peel(Enc(todo[0]), Encs(todo[1..]), rest);
    TakeDrop(rest, n);
    FieldUnique(todo[0], f, Encs(todo[1..]) + x, y);
  }

  lemma Peel(a: bytes, b: bytes, rest: bytes)
    requires a + b <= rest
    ensures a + (b + rest[|a + b|..]) == rest
  {}

  lemma TakeDrop(s: bytes, n: nat)
    requires n <= |s|
    ensures s[..n] + s[n..] == s
  {}

  /** Reading f extends what has been read. */
  lemma Behind(orig: bytes, start: nat, p: nat, p': nat, done: seq<Field>, f: Field)
    requires Past(orig, start, p, done) && p <= p' <= |orig| && orig[p..p'] == Enc(f) && Fits(f)
    ensures Past(orig, start, p', done + [f])
  {
    EncsAppend(done, [f]);
    EncsOne(f);
    SplitSlice(orig, start, p, p');
  }

  lemma NumberRead(orig: bytes, p: nat, w: nat, v: nat, ts: seq<Target>, end: nat)
    requires end == p + w <= |orig| && v == FromLE(orig[p..end])
    ensures orig[p..end] == Enc(Num(w, v)) && Fits(Num(w, v)) && ts == ts + TargetsOf(Num(w, v))
  {
    NoTargets(ts, Num(w, v));
    LEWrite(orig[p..end]);
    FromLEBound(orig[p..end]);
  }

  lemma NumberAhead(live: bool, todo: seq<Field>, orig: bytes, p: nat, ep: nat, w: nat)
    requires Future(live, todo, orig, p, ep) && (live ==> todo != [] && SameKind(todo[0], Num(w, 0)))
    ensures p + w > ep ==> !live
  {
    Room(live, todo, orig, p, ep);
  }

  /** The field todo expects is there in full. */
  lemma Room(live: bool, todo: seq<Field>, orig: bytes, p: nat, ep: nat)
    requires Future(live, todo, orig, p, ep) && (live ==> todo != [])
    ensures live ==> Enc(todo[0]) <= orig[p..ep] && |Enc(todo[0])| <= ep - p
  {
    if live { PrefixTrans(Enc(todo[0]), Encs(todo[1..]), orig[p..ep]); }
  }

  lemma PrefixTrans(a: bytes, b: bytes, rest: bytes)
    requires a + b <= rest
    ensures a <= rest
  {
    assert a == (a + b)[..|a|] == rest[..|a|];
  }

  /** A counted string ahead announces its length and is there in full. */
  lemma CountAhead(w: nat, s: bytes, rest: bytes)
    requires LE(|s|, w) + s <= rest && |s| < Pow256(w)
    ensures w + |s| <= |rest| && FromLE(rest[..w]) == |s|
  {
    var count := LE(|s|, w);
    PrefixTrans(count, s, rest);
    LERead(|s|, w);
    SmallMod(|s|, Pow256(w));
    assert rest[..w] == count;
  }

  /** The widths there are GBIT macros for. */
  type Width = w: nat | w == 1 || w == 2 || w == 4 || w == 8 witness 1

  method Gbit(buf: array<byte>, p: nat, w: Width) returns (v: nat)
    requires p + w <= buf.Length
    ensures v == FromLE(buf[p..p + w]) && v < Pow256(w)
  {
    FromLEBound(buf[p..p + w]);
    if w == 1 {
      v := buf[p];
      FromLEStep(buf[p..p + 1]);
    } else if w == 2 {
      v := Gbit16(buf[p], buf[p + 1]);
      Gbit16Is(buf[p], buf[p + 1]);
      assert buf[p..p + 2] == [buf[p], buf[p + 1]];
    } else if w == 4 {
      v := Gbit32(buf[p], buf[p + 1], buf[p + 2], buf[p + 3]);
      Gbit32Is(buf[p], buf[p + 1], buf[p + 2], buf[p + 3]);
      assert buf[p..p + 4] == [buf[p], buf[p + 1], buf[p + 2], buf[p + 3]];
    } else {
      v := Gbit64(buf[p], buf[p + 1], buf[p + 2], buf[p + 3], buf[p + 4], buf[p + 5], buf[p + 6], buf[p + 7]);
      Gbit64Is(buf[p], buf[p + 1], buf[p + 2], buf[p + 3], buf[p + 4], buf[p + 5], buf[p + 6], buf[p + 7]);
      assert buf[p..p + 8] == [buf[p], buf[p + 1], buf[p + 2], buf[p + 3], buf[p + 4], buf[p + 5], buf[p + 6],
        buf[p + 7]];
    }
  }

  lemma TextAhead(live: bool, todo: seq<Field>, orig: bytes, p: nat, ep: nat)
    requires Future(live, todo, orig, p, ep) && (live ==> todo != [] && SameKind(todo[0], Text([])))
    requires forall s: bytes :: |s| < 0x1_0000 ==> !(EncString(s) <= orig[p..ep])
    ensures !live
  {
    Room(live, todo, orig, p, ep);
  }

  /** There is a count of w bytes at p, and room for as many bytes. */
  ghost predicate BlobRoom(orig: bytes, p: nat, ep: nat, w: nat) {
    p + w <= ep <= |orig| && p + w + FromLE(orig[p..p + w]) <= ep
  }

  lemma BlobAhead(live: bool, todo: seq<Field>, orig: bytes, p: nat, ep: nat, w: nat)
    requires Future(live, todo, orig, p, ep) && (live ==> todo != [] && SameKind(todo[0], Blob(w, [])))
    ensures live ==> BlobRoom(orig, p, ep, w)
  {
    if live {
      Room(live, todo, orig, p, ep);
      BlobFits(todo[0].data, orig, p, ep, w);
    }
  }

  lemma BlobFits(data: bytes, orig: bytes, p: nat, ep: nat, w: nat)
    requires p <= ep <= |orig| && Fits(Blob(w, data)) && Enc(Blob(w, data)) <= orig[p..ep]
    ensures BlobRoom(orig, p, ep, w)
  {
    CountAhead(w, data, orig[p..ep]);
    SubSlice(orig, p, ep, 0, w);
  }

  lemma BlobRead(orig: bytes, p: nat, w: nat, data: bytes, q: nat, end: nat)
    requires q == p + w && end == q + |data| <= |orig| && FromLE(orig[p..q]) == |data| && data == orig[q..end]
    ensures Fits(Blob(w, data)) && Enc(Blob(w, data)) == orig[p..end]
  {
    LEWrite(orig[p..q]);
    FromLEBound(orig[p..q]);
    SplitSlice(orig, p, q, end);
  }

  lemma BlobPlaced(s: bytes, orig: bytes, p: nat, trail: Trail, n: nat)
    requires n <= p <= |s| == |orig| && AllLead(s, p, trail) && s[p - n..p] == orig[p - n..p]
    ensures AllLead(s, p, Longer(trail, p - n, Target(orig[p - n..p], false)))
  {
    LeadsMore(s, p, trail, p - n, Target(orig[p - n..p], false));
  }

  predicate ShortNames(names: seq<bytes>) { forall i :: 0 <= i < |names| ==> |names[i]| < 0x1_0000 }

  /** All names announced, of which names have been read and the others are at the start of rest. */
  ghost predicate NamesLeft(all: seq<bytes>, names: seq<bytes>, n: nat, rest: bytes) {
    |all| == n && names <= all && ShortNames(all) && EncNames(all[|names|..]) <= rest
  }

  /** The count at p, and behind it the names. */
  ghost predicate NamesComing(orig: bytes, p: nat, ep: nat, all: seq<bytes>) {
    p + 2 <= ep <= |orig| && FromLE(orig[p..p + 2]) == |all| <= MAXWELEM && NamesLeft(all, [], |all|, orig[p + 2..ep])
  }

  lemma NamesAhead(live: bool, todo: seq<Field>, orig: bytes, p: nat, ep: nat, all: seq<bytes>)
    requires Future(live, todo, orig, p, ep) &&
      (live ==> todo != [] && SameKind(todo[0], Names([])) && all == todo[0].names)
    ensures live ==> NamesComing(orig, p, ep, all)
  {
    if live {
      Room(live, todo, orig, p, ep);
      ListAhead(|all|, EncNames(all), orig[p..ep]);
      SlicesAhead(orig, p, p + 2, ep);
      assert all[0..] == all;
    }
  }

  /** A count of two bytes in front of an encoded list. */
  lemma ListAhead(n: nat, body: bytes, rest: bytes)
    requires n < 0x1_0000 && LE(n, 2) + body <= rest
    ensures 2 <= |rest| && FromLE(rest[..2]) == n && body <= rest[2..]
  {
    Powers();
    LERead(n, 2);
    SmallMod(n, 0x1_0000);
    assert rest[..2] == LE(n, 2);
    assert body == (LE(n, 2) + body)[2..];
  }

  lemma NameNext(all: seq<bytes>, names: seq<bytes>, n: nat, orig: bytes, p: nat, p': nat, ep: nat, s: Result<bytes>)
    requires p <= p' <= ep <= |orig| && NamesLeft(all, names, n, orig[p..ep]) && |names| < n
    requires s.Ok? ==> |s.value| < 0x1_0000 && orig[p..p'] == EncString(s.value)
    requires s.Err? ==> forall t: bytes :: |t| < 0x1_0000 ==> !(EncString(t) <= orig[p..ep])
    ensures s.Ok? && NamesLeft(all, names + [s.value], n, orig[p'..ep])
  {
    var next, left, rest := all[|names|], all[|names|..], orig[p..ep];
    assert left[0] == next && left[1..] == all[|names| + 1..];
    PrefixTrans(EncString(next), EncNames(left[1..]), rest);
    assert s.Ok?;
    SlicesAhead(orig, p, p', ep);
    Peel(EncString(next), EncNames(left[1..]), rest);
    TakeDrop(rest, p' - p);
    Powers();
    CountedUnique(2, next, s.value, EncNames(left[1..]) + rest[|EncNames(left)|..], rest[p' - p..]);
  }

  lemma NameAdded(orig: bytes, q: nat, p: nat, p': nat, names: seq<bytes>, s: bytes, ts: seq<Target>)
    requires q <= p <= p' <= |orig| && orig[q..p] == EncNames(names) && orig[p..p'] == EncString(s)
    ensures orig[q..p'] == EncNames(names + [s])
    ensures ts + NameTargets(names) + [Target(s, true)] == ts + NameTargets(names + [s])
  {
    NamesAppend(names, s);
    SplitSlice(orig, q, p, p');
  }

  lemma NamesRead(orig: bytes, p: nat, p': nat, names: seq<bytes>)
    requires p + 2 <= p' <= |orig| && FromLE(orig[p..p + 2]) == |names| && orig[p + 2..p'] == EncNames(names)
    ensures orig[p..p'] == Enc(Names(names))
  {
    LEWrite(orig[p..p + 2]);
    SplitSlice(orig, p, p + 2, p');
  }

  /** The count at p is one of at most sixteen qids, and there is room for them. */
  ghost predicate QidsRoom(orig: bytes, p: nat, ep: nat) {
    p + 2 <= ep <= |orig| && FromLE(orig[p..p + 2]) <= MAXWELEM && p + 2 + FromLE(orig[p..p + 2]) * QIDSZ <= ep
  }

  lemma QidsAhead(live: bool, todo: seq<Field>, orig: bytes, p: nat, ep: nat)
    requires Future(live, todo, orig, p, ep) && (live ==> todo != [] && SameKind(todo[0], Qids([])))
    ensures live ==> QidsRoom(orig, p, ep)
  {
    if live {
      var all := todo[0].qids;
      Room(live, todo, orig, p, ep);
      ListAhead(|all|, EncQids(all), orig[p..ep]);
      SlicesAhead(orig, p, p + 2, ep);
    }
  }

  lemma QidsRead(orig: bytes, p: nat, p': nat, qids: seq<Qid>)
    requires p + 2 <= p' <= |orig| && FromLE(orig[p..p + 2]) == |qids| && orig[p + 2..p'] == EncQids(qids)
    ensures orig[p..p'] == Enc(Qids(qids))
  {
    LEWrite(orig[p..p + 2]);
    SplitSlice(orig, p, p + 2, p');
  }

  lemma QidAhead(live: bool, todo: seq<Field>, orig: bytes, p: nat, ep: nat)
    requires Future(live, todo, orig, p, ep) && (live ==> todo != [] && SameKind(todo[0], One(Qid(0, 0, 0))))
    ensures p + QIDSZ > ep ==> !live
  {
    Room(live, todo, orig, p, ep);
  }

  lemma NoTargets(ts: seq<Target>, f: Field)
    requires f.Num? || f.One? || f.Qids?
    ensures ts == ts + TargetsOf(f)
  {}

  lemma QidRead(s: bytes, p: nat, typ: u8, vers: u32, path: u64)
    requires p + QIDSZ <= |s| && typ == FromLE(s[p..p + 1]) && vers == FromLE(s[p + 1..p + 5]) &&
      path == FromLE(s[p + 5..p + 13])
    ensures EncQid(Qid(typ, vers, path)) == s[p..p + QIDSZ]
  {
    LEWrite(s[p..p + 1]);
    LEWrite(s[p + 1..p + 5]);
    LEWrite(s[p + 5..p + 13]);
    assert s[p..p + 13] == s[p..p + 1] + s[p + 1..p + 5] + s[p + 5..p + 13];
  }

  lemma StringFits(s: bytes, orig: bytes, p: nat, ep: nat)
    requires p <= ep <= |orig| && |s| < 0x1_0000 && EncString(s) <= orig[p..ep]
    ensures p + 2 <= ep && p + 2 + FromLE(orig[p..p + 2]) <= ep
  {
    Powers();
    CountAhead(2, s, orig[p..ep]);
    SlicesAhead(orig, p, p + 2, ep);
  }

  lemma StringAhead(orig: bytes, p: nat, ep: nat)
    requires p <= ep <= |orig|
    ensures p + 2 > ep || p + 2 + FromLE(orig[p..p + 2]) > ep ==>
      forall s: bytes :: |s| < 0x1_0000 ==> !(EncString(s) <= orig[p..ep])
  {
    forall s: bytes | |s| < 0x1_0000 && EncString(s) <= orig[p..ep]
      ensures p + 2 <= ep && p + 2 + FromLE(orig[p..p + 2]) <= ep
    {
      StringFits(s, orig, p, ep);
    }
  }

  lemma StringRead(orig: bytes, p: nat, n: nat)
    requires p + 2 + n <= |orig| && FromLE(orig[p..p + 2]) == n
    ensures n < 0x1_0000 && EncString(orig[p + 2..p + 2 + n]) == orig[p..p + 2 + n]
  {
    Powers();
    LEWrite(orig[p..p + 2]);
    FromLEBound(orig[p..p + 2]);
    assert orig[p..p + 2 + n] == orig[p..p + 2] + orig[p + 2..p + 2 + n];
  }

  method MoveDown(buf: array<byte>, q: nat, n: nat)
    requires q + n < buf.Length
    modifies buf
    ensures buf[..] == MovedDown(old(buf[..]), q, n)
  {
    ghost var was := buf[..];
    forall i | q <= i < q + n { buf[i] := buf[i + 1]; }
    buf[q + n] := 0;
    MovedDownAt(was, buf[..], q, n);
  }

  lemma MovedDownAt(was: bytes, now: bytes, q: nat, n: nat)
    requires q + n < |was| == |now| && now[q + n] == 0
    requires forall i :: 0 <= i < |was| && !(q <= i <= q + n) ==> now[i] == was[i]
    requires forall i :: q <= i < q + n ==> now[i] == was[i + 1]
    ensures now == MovedDown(was, q, n)
  {}

  /** Everything a reader holds. */
  datatype Snapshot = Snapshot(buf: bytes, view: bytes, orig: bytes, start: nat, p: nat, ep: nat, trail: Trail,
                               done: seq<Field>, todo: seq<Field>, live: bool)

  /** What has been read encodes to the bytes read, and its pointers lead there. If live, the bytes to
      come encode todo. */
  ghost predicate Faithful(s: Snapshot) {
    && s.view == s.buf && Reading(s.view, s.orig, s.start, s.p, s.ep, s.trail)
    && s.trail.ts == Targets(s.done) && Past(s.orig, s.start, s.p, s.done) && Future(s.live, s.todo, s.orig, s.p, s.ep)
  }

  /** inv is Faithful, looked into only where Faithful is mentioned. */
  ghost predicate Means(inv: Snapshot -> bool) {
    forall s {:trigger Faithful(s)} :: inv(s) <==> Faithful(s)
  }

  ghost predicate Awaits(s: Snapshot, f: Field) { s.live ==> s.todo != [] && SameKind(s.todo[0], f) }

  ghost function AllNames(s: Snapshot): seq<bytes>
    requires Awaits(s, Names([]))
  {
    if s.live then s.todo[0].names else []
  }

  // What a reader may rely on before it reads a field; nothing else of Faithful is looked into there.

  lemma Opening(inv: Snapshot -> bool, s: Snapshot)
    requires Means(inv) && inv(s)
    ensures s.view == s.buf && Reading(s.view, s.orig, s.start, s.p, s.ep, s.trail)
  {
    assert Faithful(s);
  }

  lemma NumberNext(inv: Snapshot -> bool, s: Snapshot, w: nat)
    requires Means(inv) && inv(s) && Awaits(s, Num(w, 0))
    ensures s.p + w > s.ep ==> !s.live
  {
    assert Faithful(s);
    NumberAhead(s.live, s.todo, s.orig, s.p, s.ep, w);
  }

  lemma TextNext(inv: Snapshot -> bool, s: Snapshot)
    requires Means(inv) && inv(s) && Awaits(s, Text([])) && s.p <= s.ep <= |s.orig|
    requires forall t: bytes :: |t| < 0x1_0000 ==> !(EncString(t) <= s.orig[s.p..s.ep])
    ensures !s.live
  {
    assert Faithful(s);
    TextAhead(s.live, s.todo, s.orig, s.p, s.ep);
  }

  lemma QidNext(inv: Snapshot -> bool, s: Snapshot)
    requires Means(inv) && inv(s) && Awaits(s, One(Qid(0, 0, 0)))
    ensures s.p + QIDSZ > s.ep ==> !s.live
  {
    assert Faithful(s);
    QidAhead(s.live, s.todo, s.orig, s.p, s.ep);
  }

  lemma BlobNext(inv: Snapshot -> bool, s: Snapshot, w: nat)
    requires Means(inv) && inv(s) && Awaits(s, Blob(w, []))
    ensures s.live ==> BlobRoom(s.orig, s.p, s.ep, w)
  {
    assert Faithful(s);
    BlobAhead(s.live, s.todo, s.orig, s.p, s.ep, w);
  }

  lemma NamesNext(inv: Snapshot -> bool, s: Snapshot, all: seq<bytes>)
    requires Means(inv) && inv(s) && Awaits(s, Names([])) && s.p <= s.ep <= |s.orig| && all == AllNames(s)
    ensures s.live ==> NamesComing(s.orig, s.p, s.ep, all)
  {
    assert Faithful(s);
    NamesAhead(s.live, s.todo, s.orig, s.p, s.ep, all);
  }

  lemma QidsNext(inv: Snapshot -> bool, s: Snapshot)
    requires Means(inv) && inv(s) && Awaits(s, Qids([]))
    ensures s.live ==> QidsRoom(s.orig, s.p, s.ep)
  {
    assert Faithful(s);
    QidsAhead(s.live, s.todo, s.orig, s.p, s.ep);
  }

  /** t is s after f has been read, but for the bookkeeping. */
  ghost predicate Reads(s: Snapshot, t: Snapshot, f: Field) {
    && t.orig == s.orig && t.start == s.start && t.ep == s.ep && t.done == s.done && t.todo == s.todo &&
      t.live == s.live
    && t.view == t.buf && Reading(t.view, t.orig, t.start, t.p, t.ep, t.trail)
    && s.p <= t.p && t.orig[s.p..t.p] == Enc(f) && Fits(f) && t.trail.ts == s.trail.ts + TargetsOf(f)
  }

  function Noted(t: Snapshot, f: Field): Snapshot
    requires t.live ==> t.todo != []
  {
    t.(done := t.done + [f], todo := if t.live then t.todo[1..] else t.todo)
  }

  lemma NotedFaithful(inv: Snapshot -> bool, s: Snapshot, t: Snapshot, f: Field)
    requires Means(inv) && inv(s) && Awaits(s, f) && Reads(s, t, f)
    ensures inv(Noted(t, f)) && (s.live ==> s.todo[0] == f)
  {
    assert Faithful(s);
    Behind(s.orig, s.start, s.p, t.p, s.done, f);
    Ahead(s.live, s.todo, s.orig, s.p, t.p, s.ep, f);
    TargetsAppend(s.done, f);
    assert Faithful(Noted(t, f));
  }

  class Reader {
    const buf: array<byte>
    const ep: nat
    var p: nat

    ghost const orig: bytes
    ghost const start: nat
    ghost const live: bool
    ghost const inv: Snapshot -> bool
    ghost var view: bytes
    ghost var trail: Trail
    ghost var done: seq<Field>
    ghost var todo: seq<Field>

    ghost predicate Sound()
      reads this`p, this`view, this`trail, buf
    {
      view == buf[..] && Reading(view, orig, start, p, ep, trail)
    }

    ghost function Now(): Snapshot
      reads this, buf
    {
      Snapshot(buf[..], view, orig, start, p, ep, trail, done, todo, live)
    }

    ghost predicate Valid()
      reads this, buf
    {
      Means(inv) && inv(Now())
    }

    ghost predicate Expects(f: Field)
      reads this
    {
      live ==> todo != [] && SameKind(todo[0], f)
    }

    constructor (buf: array<byte>, ep: nat, p: nat, ghost live: bool, ghost todo: seq<Field>)
      requires p <= ep <= buf.Length
      requires live ==> Encs(todo) <= buf[p..ep] && AllFit(todo)
      ensures Valid() && this.buf == buf && this.ep == ep && this.p == p && start == p && orig == buf[..]
      ensures this.live == live && this.todo == todo && done == []
    {
      this.buf, this.ep, this.p := buf, ep, p;
      this.orig, this.start, this.live, this.inv := buf[..], p, live, s => Faithful(s);
      this.view, this.trail, this.done, this.todo := buf[..], Trail([], []), [], todo;
      new;
      assert this.buf[..][p..ep] == buf[p..ep];
      assert Faithful(Now());
    }

    /** The bookkeeping after f has been read. */
    ghost method Commit(s: Snapshot, f: Field)
      requires Means(inv) && inv(s) && Awaits(s, f) && Reads(s, Now(), f)
      modifies this`done, this`todo
      ensures Valid() && Took(f, live, old(done), old(todo), done, todo)
    {
      ghost var t := Now();
      NotedFaithful(inv, s, t, f);
      done, todo := done + [f], if live then todo[1..] else todo;
      assert Now() == Noted(t, f);
    }

    method Skip(n: nat)
      requires Sound() && p + n <= ep
      modifies this`p
      ensures Sound() && p == old(p) + n && view[old(p)..p] == orig[old(p)..p]
    {
      Skipped(view, orig, start, p, ep, trail, n);
      p := p + n;
    }

    /** One GBIT macro behind its bounds check. */
    method Gnum(w: Width) returns (r: Result<nat>)
      requires Sound()
      modifies this`p
      ensures Sound()
      ensures r.Ok? ==> p == old(p) + w && r.value == FromLE(orig[old(p)..p]) && r.value < Pow256(w)
      ensures r.Err? ==> p == old(p) && p + w > ep
    {
      if p + w > ep { return Err; }
      var v := Gbit(buf, p, w);
      assert buf[p..p + w] == view[p..p + w];
      Skip(w);
      return Ok(v);
    }

    /** The n bytes behind the count go down on top of it, and get their terminator. */
    method TakeDown(n: nat) returns (str: bytes)
      requires Sound() && p + 2 + n <= ep
      modifies this`p, this`view, this`trail, buf
      ensures Sound() && p == old(p) + 2 + n && str == orig[old(p) + 2..p]
      ensures trail.ts == old(trail.ts) + [Target(str, true)]
    {
      var q, next := p + 1, p + 2 + n;
      ghost var s := orig[q + 1..next];
      StringPlaced(view, orig, start, p, ep, trail, n, q, next, s);
      MoveDown(buf, q, n);
      view := MovedDown(view, q, n);
      trail := Longer(trail, q, Target(s, true));
      p := next;
      str := buf[q..q + n];
      assert str == view[q..q + n];
    }

    /** gstring */
    method Gstring() returns (r: Result<bytes>)
      requires Sound()
      modifies this`p, this`view, this`trail, buf
      ensures Sound()
      ensures r.Ok? ==> old(p) <= p && |r.value| < 0x1_0000 && orig[old(p)..p] == EncString(r.value)
      ensures r.Ok? ==> trail.ts == old(trail.ts) + [Target(r.value, true)]
      ensures r.Err? ==> p == old(p) && forall s: bytes :: |s| < 0x1_0000 ==> !(EncString(s) <= orig[old(p)..ep])
    {
      if p + 2 > ep {
        StringAhead(orig, p, ep);
        return Err;
      }
      var n := Gbit(buf, p, 2);
      assert buf[p..p + 2] == view[p..p + 2];
      Skipped(view, orig, start, p, ep, trail, 2);
      if p + 2 + n > ep {
        StringAhead(orig, p, ep);
        return Err;
      }
      StringRead(orig, p, n);
      var str := TakeDown(n);
      return Ok(str);
    }

    /** gqid */
    method Gqid() returns (r: Result<Qid>)
      requires Sound()
      modifies this`p
      ensures Sound()
      ensures r.Ok? ==> old(p) <= p && orig[old(p)..p] == EncQid(r.value)
      ensures r.Err? ==> p == old(p) && p + QIDSZ > ep
    {
      if p + QIDSZ > ep { return Err; }
      Powers();
      var typ := Gbit(buf, p, 1);
      var vers := Gbit(buf, p + 1, 4);
      var path := Gbit(buf, p + 5, 8);
      assert buf[p..p + 1] == view[p..p + 1] && buf[p + 1..p + 5] == view[p + 1..p + 5] &&
        buf[p + 5..p + 13] == view[p + 5..p + 13];
      QidRead(view, p, typ, vers, path);
      Skip(QIDSZ);
      return Ok(Qid(typ, vers, path));
    }

    method GnumField(w: Width) returns (r: Result<nat>)
      requires Sound()
      modifies this`p
      ensures r.Ok? ==> Reads(old(Now()), Now(), Num(w, r.value)) && r.value < Pow256(w)
      ensures r.Err? ==> old(p) + w > ep
    {
      r := Gnum(w);
      if r.Ok? { NumberRead(orig, old(p), w, r.value, trail.ts, p); }
    }

    method Number(w: Width) returns (r: Result<nat>)
      requires Valid() && Expects(Num(w, 0))
      modifies this`p, this`done, this`todo
      ensures r.Ok? ==> Valid() && Took(Num(w, r.value), live, old(done), old(todo), done, todo) && r.value < Pow256(w)
      ensures r.Err? ==> !live
    {
      ghost var s := Now();
      Opening(inv, s);
      NumberNext(inv, s, w);
      r := GnumField(w);
      if r.Err? { return; }
      Commit(s, Num(w, r.value));
    }

    method U8() returns (r: Result<u8>)
      requires Valid() && Expects(Num(1, 0))
      modifies this`p, this`done, this`todo
      ensures r.Ok? ==> Valid() && Took(Num(1, r.value), live, old(done), old(todo), done, todo)
      ensures r.Err? ==> !live
    {
      Powers();
      var v :- Number(1);
      return Ok(v);
    }

    method U16() returns (r: Result<u16>)
      requires Valid() && Expects(Num(2, 0))
      modifies this`p, this`done, this`todo
      ensures r.Ok? ==> Valid() && Took(Num(2, r.value), live, old(done), old(todo), done, todo)
      ensures r.Err? ==> !live
    {
      Powers();
      var v :- Number(2);
      return Ok(v);
    }

    method U32() returns (r: Result<u32>)
      requires Valid() && Expects(Num(4, 0))
      modifies this`p, this`done, this`todo
      ensures r.Ok? ==> Valid() && Took(Num(4, r.value), live, old(done), old(todo), done, todo)
      ensures r.Err? ==> !live
    {
      Powers();
      var v :- Number(4);
      return Ok(v);
    }

    method U64() returns (r: Result<u64>)
      requires Valid() && Expects(Num(8, 0))
      modifies this`p, this`done, this`todo
      ensures r.Ok? ==> Valid() && Took(Num(8, r.value), live, old(done), old(todo), done, todo)
      ensures r.Err? ==> !live
    {
      Powers();
      var v :- Number(8);
      return Ok(v);
    }

    method String() returns (r: Result<bytes>)
      requires Valid() && Expects(Text([]))
      modifies this`p, this`view, this`trail, this`done, this`todo, buf
      ensures r.Ok? ==> Valid() && Took(Text(r.value), live, old(done), old(todo), done, todo)
      ensures r.Err? ==> !live
    {
      ghost var s := Now();
      Opening(inv, s);
      r := Gstring();
      if r.Err? {
        TextNext(inv, s);
        return;
      }
      Commit(s, Text(r.value));
    }

    method OneQid() returns (r: Result<Qid>)
      requires Valid() && Expects(One(Qid(0, 0, 0)))
      modifies this`p, this`done, this`todo
      ensures r.Ok? ==> Valid() && Took(One(r.value), live, old(done), old(todo), done, todo)
      ensures r.Err? ==> !live
    {
      ghost var s := Now();
      Opening(inv, s);
      QidNext(inv, s);
      r := Gqid();
      if r.Err? { return; }
      NoTargets(trail.ts, One(r.value));
      Commit(s, One(r.value));
    }

    method Gdata(n: nat) returns (data: bytes)
      requires Sound() && p + n <= ep
      modifies this`p, this`trail
      ensures Sound() && p == old(p) + n && |data| == n && data == orig[old(p)..p]
      ensures trail == Longer(old(trail), old(p), Target(data, false))
    {
      data := buf[p..p + n];
      assert data == view[p..p + n];
      Skip(n);
      BlobPlaced(view, orig, p, trail, n);
      trail := Longer(trail, p - n, Target(data, false));
    }

    /** If live, the data announced is there. */
    method Gblob(w: Width, ghost live: bool) returns (r: Result<bytes>)
      requires Sound() && (live ==> BlobRoom(orig, p, ep, w))
      modifies this`p, this`trail
      ensures r.Ok? ==> Reads(old(Now()), Now(), Blob(w, r.value)) && |r.value| < Pow256(w)
      ensures r.Err? ==> !live
    {
      var c := Gnum(w);
      if c.Err? { return Err; }
      ghost var q := p;
      if p + c.value > ep { return Err; }
      var data := Gdata(c.value);
      BlobRead(orig, old(p), w, data, q, p);
      return Ok(data);
    }

    /** The n names behind their count. If live, all is the list that is there. */
    method NamesLoop(n: nat, ghost live: bool, ghost all: seq<bytes>) returns (ok: bool, names: seq<bytes>)
      requires Sound() && (live ==> NamesLeft(all, [], n, orig[p..ep]))
      modifies this`p, this`view, this`trail, buf
      ensures Sound() && old(p) <= p
      ensures ok ==> |names| == n && orig[old(p)..p] == EncNames(names) && ShortNames(names)
      ensures ok ==> trail.ts == old(trail.ts) + NameTargets(names)
      ensures !ok ==> !live
    {
      names := [];
      while |names| < n
        invariant Sound() && old(p) <= p
        invariant trail.ts == old(trail.ts) + NameTargets(names)
        invariant |names| <= n && orig[old(p)..p] == EncNames(names) && ShortNames(names)
        invariant live ==> NamesLeft(all, names, n, orig[p..ep])
      {
        ghost var q := p;
        var s := Gstring();
        if live { NameNext(all, names, n, orig, q, p, ep, s); }
        if s.Err? { return false, names; }
        NameAdded(orig, old(p), q, p, names, s.value, old(trail.ts));
        names := names + [s.value];
      }
      ok := true;
    }

    /** At most sixteen names behind their count. If live, all is the list that is there. */
    method Gnames(ghost live: bool, ghost all: seq<bytes>) returns (r: Result<seq<bytes>>)
      requires Sound()
      requires live ==> NamesComing(orig, p, ep, all)
      modifies this`p, this`view, this`trail, buf
      ensures r.Ok? ==> Reads(old(Now()), Now(), Names(r.value)) && |r.value| <= MAXWELEM
      ensures r.Err? ==> !live
    {
      var c := Gnum(2);
      if c.Err? || c.value > MAXWELEM { return Err; }
      var ok, names := NamesLoop(c.value, live, all);
      if !ok { return Err; }
      NamesRead(orig, old(p), p, names);
      return Ok(names);
    }

    /** A count of w bytes and that many bytes of data, left where they are. */
    method Data(w: Width) returns (r: Result<bytes>)
      requires Valid() && Expects(Blob(w, []))
      modifies this`p, this`trail, this`done, this`todo
      ensures r.Ok? ==>
        Valid() && Took(Blob(w, r.value), live, old(done), old(todo), done, todo) && |r.value| < Pow256(w)
      ensures r.Err? ==> !live
    {
      ghost var s := Now();
      Opening(inv, s);
      BlobNext(inv, s, w);
      r := Gblob(w, live);
      if r.Err? { return; }
      Commit(s, Blob(w, r.value));
    }

    method NameList() returns (r: Result<seq<bytes>>)
      requires Valid() && Expects(Names([]))
      modifies this`p, this`view, this`trail, this`done, this`todo, buf
      ensures r.Ok? ==> Valid() && Took(Names(r.value), live, old(done), old(todo), done, todo) && |r.value| <= MAXWELEM
      ensures r.Err? ==> !live
    {
      ghost var s := Now();
      Opening(inv, s);
      ghost var all := AllNames(s);
      NamesNext(inv, s, all);
      r := Gnames(live, all);
      if r.Err? { return; }
      Commit(s, Names(r.value));
    }

    /** The n qids behind their count. */
    method QidsLoop(n: nat, ghost end: nat) returns (ok: bool, qids: seq<Qid>)
      requires Sound() && end == p + n * QIDSZ
      modifies this`p
      ensures Sound() && old(p) <= p
      ensures ok ==> |qids| == n && orig[old(p)..p] == EncQids(qids)
      ensures !ok ==> end > ep
    {
      qids := [];
      while |qids| < n
        invariant Sound() && p == old(p) + |qids| * QIDSZ
        invariant |qids| <= n && orig[old(p)..p] == EncQids(qids)
      {
        ghost var q := p;
        var x := Gqid();
        if x.Err? { return false, qids; }
        QidsAppend(qids, x.value);
        SplitSlice(orig, old(p), q, p);
        qids := qids + [x.value];
      }
      ok := true;
    }

    /** At most sixteen qids behind their count. If live, there is room for them. */
    method Gqids(ghost live: bool) returns (r: Result<seq<Qid>>)
      requires Sound() && (live ==> QidsRoom(orig, p, ep))
      modifies this`p
      ensures r.Ok? ==> Reads(old(Now()), Now(), Qids(r.value)) && |r.value| <= MAXWELEM
      ensures r.Err? ==> !live
    {
      var c := Gnum(2);
      if c.Err? || c.value > MAXWELEM { return Err; }
      var ok, qids := QidsLoop(c.value, p + c.value * QIDSZ);
      if !ok { return Err; }
      QidsRead(orig, old(p), p, qids);
      NoTargets(trail.ts, Qids(qids));
      return Ok(qids);
    }

    method QidList() returns (r: Result<seq<Qid>>)
      requires Valid() && Expects(Qids([]))
      modifies this`p, this`done, this`todo
      ensures r.Ok? ==> Valid() && Took(Qids(r.value), live, old(done), old(todo), done, todo) && |r.value| <= MAXWELEM
      ensures r.Err? ==> !live
    {
      ghost var s := Now();
      Opening(inv, s);
      QidsNext(inv, s);
      r := Gqids(live);
      if r.Err? { return; }
      Commit(s, Qids(r.value));
    }
  }
}
