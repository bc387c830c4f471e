/** The fid pool of NinePAsyncClient.swift: fresh fids from a 32-bit counter, released ones from a stack. */
module FidPool {
  import opened Options

  const WRAP := 0x1_0000_0000
  const NOFID := 0xFFFF_FFFF

  type Fid = f: nat | f < WRAP

  /** pending holds the fids of attaches under way, lost those of attaches that have failed; peak is the largest
      number of fids handed out and not returned at any time so far. These only record what happened. */
  datatype Pool = Pool(nextFid: Fid, free: seq<Fid>, inUse: set<Fid>, root: Option<Fid>, pending: set<Fid>,
    lost: set<Fid>, peak: nat)

  const INIT := Pool(1, [], {}, None, {}, {}, 0)

  datatype Event = Allocate | AttachBegins | Attached(fid: Fid) | AttachFails(fid: Fid) | Release(fid: Fid)

  function Successor(f: Fid): Fid { (f + 1) % WRAP }

  /** allocFid */
  function Alloc(p: Pool): (r: (Pool, Fid)) {
    if p.free != [] then (p.(free := p.free[..|p.free| - 1]), p.free[|p.free| - 1])
    else
      var fid := if p.nextFid == 0 || p.nextFid == NOFID then Successor(p.nextFid) else p.nextFid;
      (p.(nextFid := Successor(fid)), fid)
  }

  function Out(p: Pool): set<Fid> { p.inUse + p.pending + p.lost }

  function Peaked(p: Pool): Pool { p.(peak := if |Out(p)| > p.peak then |Out(p)| else p.peak) }

  /** releaseFid passes over these. */
  predicate Ignored(p: Pool, fid: Fid) { fid == 0 || fid == NOFID || p.root == Some(fid) }

  function Apply(p: Pool, e: Event): Pool {
    match e
    case Allocate => var (q, fid) := Alloc(p); Peaked(q.(inUse := q.inUse + {fid}))
    case AttachBegins => var (q, fid) := Alloc(p); Peaked(q.(pending := q.pending + {fid}))
    case Attached(fid) => p.(root := Some(fid), inUse := p.inUse + {fid}, pending := p.pending - {fid})
    case AttachFails(fid) => p.(pending := p.pending - {fid}, lost := p.lost + {fid})
    case Release(fid) => if Ignored(p, fid) then p else p.(inUse := p.inUse - {fid}, free := p.free + [fid])
  }

  // ----- conservation -----

  ghost predicate NoDuplicates(s: seq<Fid>) { forall i, j :: 0 <= i < j < |s| ==> s[i] != s[j] }

  function Elements(s: seq<Fid>): set<Fid> { set f | f in s }

  function UpTo(n: nat): (r: set<Fid>)
    requires n <= WRAP
    ensures forall f: Fid :: f in r <==> 1 <= f < n
    decreases n, WRAP
  {
    if n <= 1 then {} else UpTo(n - 1) + {n - 1}
  }

  /** 1 to nextFid - 1 are free, in use, pending or lost, each of them exactly one of these, and free ones are
      listed once. */
  ghost predicate Conserved(p: Pool) {
    && NoDuplicates(p.free)
    && Elements(p.free) !! p.inUse !! p.pending !! p.lost
    && Elements(p.free) + p.inUse + p.pending + p.lost == UpTo(p.nextFid)
  }

  ghost predicate Inv(p: Pool) {
    && 1 <= p.nextFid && Conserved(p) && p.peak == p.nextFid - 1
    && (p.root.Some? ==> p.root.value in p.inUse)
  }

  /** Fewer than 2^32 - 2 fids have been taken fresh. */
  predicate Unwrapped(p: Pool) { p.free != [] || p.nextFid < NOFID }

  /** Attaches end that have begun; a fid is released by who holds it. */
  predicate Enabled(p: Pool, e: Event) {
    match e
    case Allocate => Unwrapped(p)
    case AttachBegins => Unwrapped(p)
    case Attached(fid) => fid in p.pending
    case AttachFails(fid) => fid in p.pending
    case Release(fid) => Ignored(p, fid) || fid in p.inUse
  }

  lemma {:induction false} UpToSize(n: nat)
    requires 1 <= n <= WRAP
    ensures |UpTo(n)| == n - 1
  {
    if n == 1 {
      assert UpTo(1) == {};
    } else {
      UpToSize(n - 1);
      assert UpTo(n) == UpTo(n - 1) + {n - 1};
    }
  }

  lemma {:induction false} ElementsSize(s: seq<Fid>)
    requires NoDuplicates(s)
    ensures |Elements(s)| == |s|
  {
    if s == [] {
      assert Elements(s) == {};
    } else {
      var t := s[..|s| - 1];
      ElementsSize(t);
      assert s == t + [s[|s| - 1]];
      assert Elements(s) == Elements(t) + {s[|s| - 1]};
      assert s[|s| - 1] !in Elements(t);
    }
  }

  /** The sizes add up: what is out and what is free make nextFid - 1. */
  lemma Sizes(p: Pool)
    requires Conserved(p) && 1 <= p.nextFid
    ensures |Out(p)| + |p.free| == p.nextFid - 1
  {
    UpToSize(p.nextFid);
    ElementsSize(p.free);
    assert Out(p) !! Elements(p.free) && Out(p) + Elements(p.free) == UpTo(p.nextFid);
  }

  /** A fid handed out is none of the reserved ones and nobody else's. */
  lemma AllocFresh(p: Pool)
    requires Inv(p) && Unwrapped(p)
    ensures var (q, fid) := Alloc(p);
      && fid != 0 && fid != NOFID && fid !in Out(p) && fid !in Elements(q.free)
      && NoDuplicates(q.free) && Elements(q.free) + {fid} + Out(p) == UpTo(q.nextFid) && 1 <= q.nextFid
      && Elements(q.free) <= Elements(p.free)
      && (p.free == [] ==> q.nextFid == p.nextFid + 1 && q.free == []) && (p.free != [] ==> q.nextFid == p.nextFid)
  {
    if p.free != [] {
      var n := |p.free| - 1;
      var rest, fid := p.free[..n], p.free[n];
      assert p.free == rest + [fid];
      assert Elements(p.free) == Elements(rest) + {fid};
      assert fid !in rest;
      assert fid in UpTo(p.nextFid);
    } else {
      assert Elements([]) == {};
      assert UpTo(p.nextFid + 1) == UpTo(p.nextFid) + {p.nextFid};
    }
  }

  /** The peak moves exactly when a fresh fid is taken, which is when everything else is out. */
  lemma PeakMoves(p: Pool, q: Pool, fid: Fid)
    requires Inv(p) && Unwrapped(p) && Alloc(p) == (q, fid)
    ensures forall r: Pool :: r.nextFid == q.nextFid && r.free == q.free && Conserved(r) && r.peak == p.peak ==>
      Peaked(r).peak == q.nextFid - 1
  {
    AllocFresh(p);
    forall r: Pool | r.nextFid == q.nextFid && r.free == q.free && Conserved(r) && r.peak == p.peak
      ensures Peaked(r).peak == q.nextFid - 1
    {
      Sizes(r);
    }
  }

  lemma AllocateKeeps(p: Pool, begins: bool)
    requires Inv(p) && Unwrapped(p)
    ensures Inv(Apply(p, if begins then AttachBegins else Allocate))
  {
    AllocFresh(p);
    var (q, fid) := Alloc(p);
    PeakMoves(p, q, fid);
    TakenConserved(p, q, fid);
    var r := if begins then q.(pending := q.pending + {fid}) else q.(inUse := q.inUse + {fid});
    assert Peaked(r).peak == q.nextFid - 1;
  }

  lemma TakenConserved(p: Pool, q: Pool, fid: Fid)
    requires Inv(p) && Unwrapped(p) && Alloc(p) == (q, fid)
    ensures Conserved(q.(pending := q.pending + {fid})) && Conserved(q.(inUse := q.inUse + {fid}))
  {
    AllocFresh(p);
  }

  lemma ReleaseKeeps(p: Pool, fid: Fid)
    requires Inv(p) && fid in p.inUse && !Ignored(p, fid)
    ensures Inv(Apply(p, Release(fid)))
  {
    var q := Apply(p, Release(fid));
    assert Elements(q.free) == Elements(p.free) + {fid};
    assert fid !in Elements(p.free);
  }

  /** Every event of a disciplined client keeps the pool in order. */
  lemma EventKeeps(p: Pool, e: Event)
    requires Inv(p) && Enabled(p, e)
    ensures Inv(Apply(p, e))
  {
    match e
    case Allocate => AllocateKeeps(p, false);
    case AttachBegins => AllocateKeeps(p, true);
    case Attached(fid) =>
    case AttachFails(fid) =>
    case Release(fid) => if !Ignored(p, fid) { ReleaseKeeps(p, fid); }
  }

  function Run(p: Pool, es: seq<Event>): Pool
    decreases |es|
  {
    if es == [] then p else Run(Apply(p, es[0]), es[1..])
  }

  predicate AllEnabled(p: Pool, es: seq<Event>)
    decreases |es|
  {
    es == [] || (Enabled(p, es[0]) && AllEnabled(Apply(p, es[0]), es[1..]))
  }

  /** Over every run nextFid - 1 is the largest number of fids that were out at once. */
  lemma {:induction false} PoolConserved(p: Pool, es: seq<Event>)
    requires Inv(p) && AllEnabled(p, es)
    ensures Inv(Run(p, es)) && |Out(Run(p, es))| + |Run(p, es).free| == Run(p, es).nextFid - 1 == Run(p, es).peak
    decreases |es|
  {
    if es == [] {
      Sizes(p);
    } else {
      EventKeeps(p, es[0]);
      PoolConserved(Apply(p, es[0]), es[1..]);
    }
  }

  // ----- what discipline is needed -----

  /** Releasing a fid keeps the pool in order exactly when it is in use, or one that is passed over. */
  lemma ReleaseExactly(p: Pool, fid: Fid)
    requires Inv(p)
    ensures Inv(Apply(p, Release(fid))) <==> Ignored(p, fid) || fid in p.inUse
  {
    if !Ignored(p, fid) {
      if fid in p.inUse {
        ReleaseKeeps(p, fid);
      } else {
        var q := Apply(p, Release(fid));
        assert fid in q.free && fid in Elements(q.free);
        if fid in p.free {
          var i :| 0 <= i < |p.free| && p.free[i] == fid;
          assert q.free[i] == fid && q.free[|p.free|] == fid;
        }
      }
    }
  }

  /** A fid that allocFid hands out is usable exactly as long as the counter has not come to NOFID: there
      it skips to 0 and hands that out. */
  lemma UsableExactly(p: Pool)
    requires Inv(p)
    ensures Alloc(p).1 != 0 && Alloc(p).1 != NOFID <==> Unwrapped(p)
    ensures !Unwrapped(p) ==> Alloc(p).1 == 0
  {
    if Unwrapped(p) { AllocFresh(p); }
  }

  // ----- failed attaches -----

  function Failed(es: seq<Event>): set<Fid> { set e | e in es && e.AttachFails? :: e.fid }

  lemma FailedFirst(es: seq<Event>)
    requires es != []
    ensures Failed(es) == (if es[0].AttachFails? then {es[0].fid} else {}) + Failed(es[1..])
  {
    assert forall e :: e in es <==> e == es[0] || e in es[1..];
  }

  /** Over every run the fids lost are those of the attaches that failed, no more and no fewer: none ever comes
      back, and nothing else loses a fid. */
  lemma {:induction false} LostExactly(p: Pool, es: seq<Event>)
    requires Inv(p) && AllEnabled(p, es)
    ensures Run(p, es).lost == p.lost + Failed(es)
    decreases |es|
  {
    if es != [] {
      EventKeeps(p, es[0]);
      FailedFirst(es);
      LostExactly(Apply(p, es[0]), es[1..]);
    }
  }

  lemma InitInv()
    ensures Inv(INIT)
  {
    assert Elements([]) == {} && UpTo(1) == {};
  }

  /** The client accounts for every fid it has taken, as free or in use, if and only if no attach has failed and
      none is under way. */
  lemma AccountedExactly(es: seq<Event>)
    requires AllEnabled(INIT, es)
    ensures var p := Run(INIT, es);
      Elements(p.free) + p.inUse == UpTo(p.nextFid) <==> p.pending == {} && Failed(es) == {}
  {
    InitInv();
    LostExactly(INIT, es);
    PoolConserved(INIT, es);
    var p := Run(INIT, es);
    if Elements(p.free) + p.inUse == UpTo(p.nextFid) {
      assert forall f :: f in p.pending + p.lost ==> f in UpTo(p.nextFid);
    }
  }

  const ATTACHING := [AttachBegins, AttachFails(1)]

  /** The shortest run that loses a fid. */
  lemma FirstAttachFails()
    ensures AllEnabled(INIT, ATTACHING)
    ensures Run(INIT, ATTACHING).nextFid == 2 && Run(INIT, ATTACHING).free == [] && Run(INIT, ATTACHING).inUse == {} &&
      Run(INIT, ATTACHING).lost == {1}
  {
    var p := Apply(INIT, AttachBegins);
    assert p.pending == {1} && p.nextFid == 2;
    assert ATTACHING[1..] == [AttachFails(1)] && ATTACHING[1..][1..] == [];
    assert Run(p, [AttachFails(1)]) == Run(Apply(p, AttachFails(1)), []);
    assert AllEnabled(p, [AttachFails(1)]);
  }

  /** The fid released last is handed out first, and the pool is as before. */
  lemma LastReleasedFirst(p: Pool, fid: Fid)
    requires !Ignored(p, fid)
    ensures var (q, again) := Alloc(Apply(p, Release(fid)));
      again == fid && q.free == p.free && q.nextFid == p.nextFid
  {}

  /** With none released it is the next one, past 0 and NOFID. */
  lemma NextFresh(p: Pool)
    requires p.free == []
    ensures Alloc(p).1 == if p.nextFid == 0 then 1 else if p.nextFid == NOFID then 0 else p.nextFid
  {}

  /** 0, NOFID and the root are never given back. */
  lemma ReservedStay(p: Pool, fid: Fid)
    requires fid == 0 || fid == NOFID || p.root == Some(fid)
    ensures Apply(p, Release(fid)) == p
  {}

  // ----- the actor's fields -----

  class Client {
    var nextFid: Fid
    var freeFids: seq<Fid>
    var inUseFids: set<Fid>
    var rootFid: Option<Fid>
    ghost var pending: set<Fid>
    ghost var lost: set<Fid>
    ghost var peak: nat

    ghost function State(): Pool
      reads this
    {
      Pool(nextFid, freeFids, inUseFids, rootFid, pending, lost, peak)
    }

    constructor ()
      ensures State() == INIT
    {
      nextFid, freeFids, inUseFids, rootFid, pending, lost, peak := 1, [], {}, None, {}, {}, 0;
    }

    /** popLast, or a fresh fid; the counter moves on after its value has been taken. */
    method AllocFid() returns (fid: Fid)
      modifies this`nextFid, this`freeFids
      ensures (State(), fid) == Alloc(old(State()))
    {
      if |freeFids| > 0 {
        fid := freeFids[|freeFids| - 1];
        freeFids := freeFids[..|freeFids| - 1];
        return;
      }
      if nextFid == 0 || nextFid == NOFID { nextFid := Successor(nextFid); }
      fid := nextFid;
      nextFid := Successor(nextFid);
    }

    method AllocateFid() returns (fid: Fid)
      modifies this
      ensures State() == Apply(old(State()), Allocate) && fid == Alloc(old(State())).1
    {
      fid := AllocFid();
      inUseFids := inUseFids + {fid};
      peak := Peaked(State()).peak;
    }

    method ReleaseFid(fid: Fid)
      modifies this
      ensures State() == Apply(old(State()), Release(fid))
    {
      if fid == 0 || fid == NOFID || Some(fid) == rootFid { return; }
      inUseFids := inUseFids - {fid};
      freeFids := freeFids + [fid];
    }

    /** attach up to its RPC. */
    method BeginAttach() returns (fid: Fid)
      modifies this
      ensures State() == Apply(old(State()), AttachBegins) && fid == Alloc(old(State())).1
    {
      fid := AllocFid();
      pending := pending + {fid};
      peak := Peaked(State()).peak;
    }

    /** attach after its RPC; an RPC that fails leaves the fields as they are. */
    method EndAttach(fid: Fid, ok: bool)
      modifies this
      ensures State() == Apply(old(State()), if ok then Attached(fid) else AttachFails(fid))
    {
      if ok {
        rootFid := Some(fid);
        inUseFids := inUseFids + {fid};
      } else {
        lost := lost + {fid};
      }
      pending := pending - {fid};
    }
  }
}
