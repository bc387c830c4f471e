/** The volume's lookups and reclaims over the client's fid pool: what lookupItem and reclaimItem of
    Mac9PVolume.swift ask of allocateFid and releaseFid of NinePAsyncClient.swift. */
module VolumeFids {
  import opened Options
  import FidPool
  import Volume

  datatype Joint = Joint(v: Volume.State, p: FidPool.Pool)

  /** While a lookup is under way its temporary fid is not the root's. */
  ghost predicate RootApart(v: Volume.State) {
    v.root in v.held && forall n :: n in v.phases ==> var p := v.phases[n];
      p.Walking? || p.Resolved? || p.Missing? || p.Sharing? || p.Miscounted? ==> p.temp != v.root
  }

  /** Both are in order, and agree on the fids in use and on the root. */
  ghost predicate Coupled(j: Joint) {
    && Volume.Inv(j.v) && FidPool.Inv(j.p) && RootApart(j.v)
    && j.v.held == j.p.inUse && j.p.root == Some(j.v.root)
  }

  /** A walk begins with the fid that the pool hands out. */
  ghost predicate Enabled(j: Joint, step: Volume.Step) {
    match step
    case Begin(n, temp) => n !in j.v.phases && FidPool.Unwrapped(j.p) && temp == FidPool.Alloc(j.p).1
    case _ => Volume.Enabled(j.v, step)
  }

  lemma WalksFresh(j: Joint, step: Volume.Step)
    requires Coupled(j) && Enabled(j, step)
    ensures Volume.Enabled(j.v, step)
  {
    if step.Begin? { FidPool.AllocFresh(j.p); }
  }

  /** The fid that the step gives back, if it gives back one. */
  ghost function GivesBack(v: Volume.State, step: Volume.Step): Option<Volume.Fid>
    requires Volume.Enabled(v, step)
  {
    match step
    case WalkEmpty(n) => Some(v.phases[n].temp)
    case TempClunked(n) => Some(v.phases[n].temp)
    case Clunked(n) => Some(v.phases[n].fid)
    case _ => None
  }

  lemma GivesBackHeld(j: Joint, step: Volume.Step)
    requires Coupled(j) && Volume.Enabled(j.v, step) && GivesBack(j.v, step).Some?
    ensures GivesBack(j.v, step).value in j.v.held
  {
    assert Volume.Owns(j.v.phases[step.n]) == GivesBack(j.v, step);
  }

  /** What the step asks of the pool. */
  ghost function Asked(j: Joint, step: Volume.Step): Option<FidPool.Event>
    requires Coupled(j) && Enabled(j, step)
  {
    WalksFresh(j, step);
    var back := GivesBack(j.v, step);
    if step.Begin? then Some(FidPool.Allocate)
    else if back.Some? then
      GivesBackHeld(j, step);
      Some(FidPool.Release(back.value))
    else None
  }

  ghost function Apply(j: Joint, step: Volume.Step): Joint
    requires Coupled(j) && Enabled(j, step)
  {
    WalksFresh(j, step);
    var asked := Asked(j, step);
    Joint(Volume.Apply(j.v, step), if asked.Some? then FidPool.Apply(j.p, asked.value) else j.p)
  }

  lemma RootStaysApart(v: Volume.State, step: Volume.Step)
    requires RootApart(v) && Volume.Enabled(v, step)
    ensures RootApart(Volume.Apply(v, step)) && Volume.Apply(v, step).root == v.root
  {}

  lemma HeldMoves(v: Volume.State, step: Volume.Step)
    requires RootApart(v) && Volume.Enabled(v, step)
    ensures var back, held := GivesBack(v, step), Volume.Apply(v, step).held;
      if step.Begin? then held == v.held + {step.temp}
      else if back.None? || back.value == v.root then held == v.held
      else held == v.held - {back.value}
  {}

  lemma AllocateMoves(p: FidPool.Pool)
    ensures var q := FidPool.Apply(p, FidPool.Allocate);
      q.root == p.root && q.inUse == p.inUse + {FidPool.Alloc(p).1}
  {}

  lemma ReleaseMoves(p: FidPool.Pool, fid: FidPool.Fid)
    requires FidPool.Inv(p) && p.root.Some? && fid in p.inUse
    ensures var q := FidPool.Apply(p, FidPool.Release(fid));
      q.root == p.root && q.inUse == if fid == p.root.value then p.inUse else p.inUse - {fid}
  {
    assert fid in FidPool.UpTo(p.nextFid);
  }

  lemma StillAgrees(j: Joint, step: Volume.Step)
    requires Coupled(j) && Enabled(j, step) && Volume.Enabled(j.v, step)
    ensures Apply(j, step).v.held == Apply(j, step).p.inUse && Apply(j, step).p.root == Some(Apply(j, step).v.root)
  {
    RootStaysApart(j.v, step);
    HeldMoves(j.v, step);
    if step.Begin? {
      AllocateMoves(j.p);
    } else if GivesBack(j.v, step).Some? {
      GivesBackHeld(j, step);
      ReleaseMoves(j.p, GivesBack(j.v, step).value);
    }
  }

  /** Every release that a step makes is of a fid in use, as releaseFid needs it and does not check, and every walk
      gets a fid that nobody holds; unless an insertion writes over an entry in use. */
  lemma StepServed(j: Joint, step: Volume.Step)
    requires Coupled(j) && Enabled(j, step) && Volume.Harmless(j.v, step)
    ensures Volume.Enabled(j.v, step) && (Asked(j, step).Some? ==> FidPool.Enabled(j.p, Asked(j, step).value))
    ensures Coupled(Apply(j, step))
  {
    WalksFresh(j, step);
    if GivesBack(j.v, step).Some? { GivesBackHeld(j, step); }
    if Asked(j, step).Some? { FidPool.EventKeeps(j.p, Asked(j, step).value); }
    Volume.StepKeeps(j.v, step);
    RootStaysApart(j.v, step);
    StillAgrees(j, step);
  }

  ghost predicate Possible(j: Joint, steps: seq<Volume.Step>)
    requires Coupled(j)
    decreases |steps|
  {
    steps == [] ||
    (Enabled(j, steps[0]) && Volume.Harmless(j.v, steps[0]) &&
    (StepServed(j, steps[0]); Possible(Apply(j, steps[0]), steps[1..])))
  }

  /** The pool's part of a run. */
  ghost function Events(j: Joint, steps: seq<Volume.Step>): seq<FidPool.Event>
    requires Coupled(j) && Possible(j, steps)
    decreases |steps|
  {
    if steps == [] then []
    else
      StepServed(j, steps[0]);
      var asked, rest := Asked(j, steps[0]), Events(Apply(j, steps[0]), steps[1..]);
      if asked.Some? then [asked.value] + rest else rest
  }

  ghost function Run(j: Joint, steps: seq<Volume.Step>): Joint
    requires Coupled(j) && Possible(j, steps)
    decreases |steps|
  {
    if steps == [] then j
    else
      StepServed(j, steps[0]);
      Run(Apply(j, steps[0]), steps[1..])
  }

  /** In every run in which no insertion writes over an entry in use, the volume keeps the discipline that the pool
      relies on; the pool ends where these events lead it, and volume and pool still agree. */
  lemma {:induction false} RunServed(j: Joint, steps: seq<Volume.Step>)
    requires Coupled(j) && Possible(j, steps)
    ensures FidPool.AllEnabled(j.p, Events(j, steps))
    ensures Run(j, steps).p == FidPool.Run(j.p, Events(j, steps)) && Coupled(Run(j, steps))
    decreases |steps|
  {
    if steps != [] {
      StepServed(j, steps[0]);
      var t, asked := Apply(j, steps[0]), Asked(j, steps[0]);
      RunServed(t, steps[1..]);
      var rest := Events(t, steps[1..]);
      if asked.Some? {
        assert ([asked.value] + rest)[0] == asked.value && ([asked.value] + rest)[1..] == rest;
      }
    }
  }

  /** So the pool's conservation speaks of every such run: with the fids of tasks and entries and the free ones
      everything is accounted for that has ever been taken, but for attaches. */
  lemma FidsConserved(j: Joint, steps: seq<Volume.Step>)
    requires Coupled(j) && Possible(j, steps)
    ensures var t := Run(j, steps);
      |t.v.held + t.p.pending + t.p.lost| + |t.p.free| == t.p.nextFid - 1 == t.p.peak
  {
    RunServed(j, steps);
    FidPool.PoolConserved(j.p, Events(j, steps));
  }

  const MOUNTED := FidPool.Pool(2, [], {1}, Some(1), {}, {}, 1)

  /** What mount leaves behind in the pool: the root attached under the first fid. */
  lemma MountedPool()
    ensures FidPool.Inv(MOUNTED) && MOUNTED ==
      FidPool.Apply(FidPool.Apply(FidPool.INIT, FidPool.AttachBegins), FidPool.Attached(1))
  {
    FidPool.InitInv();
    FidPool.EventKeeps(FidPool.INIT, FidPool.AttachBegins);
    var p := FidPool.Apply(FidPool.INIT, FidPool.AttachBegins);
    assert p == FidPool.Pool(2, [], {}, None, {1}, {}, 1);
    FidPool.EventKeeps(p, FidPool.Attached(1));
  }

  lemma MountCouples()
    ensures Coupled(Joint(Volume.Mounted(1), MOUNTED))
  {
    MountedPool();
    Volume.MountedInv(1);
  }
}
