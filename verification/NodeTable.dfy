/** The node table of kext/vnops.c: nget_9p, ndel_9p, vnop_lookup_9p and vnop_reclaim_9p, run by any number
    of threads. Each stretch between two operations on the table lock, or around one call to the server or to
    the vnode layer, is one step. Fids are told apart by the walk that obtained them; nodes by when they were
    allocated. */
module NodeTable {
  import opened Options

  type Thread = nat
  type NodeId = nat
  type Path = nat
  type Fid = nat

  /** listed: on its hash chain. owning: its fid is its own to clunk (not yet while it is initialised, no more
      once it has been clunked); this is only for reasoning. */
  datatype Node = Node(path: Path, fid: Fid, init: bool, waitinit: bool, recl: bool, waitrecl: bool, listed: bool,
    owning: bool)

  datatype Phase =
    | Idle
    | Walked(fid: Fid, path: Path)                  // the walk is done, nget_9p comes to its loop
    | SleepsInit(fid: Fid, path: Path, n: NodeId)
    | SleepsRecl(fid: Fid, path: Path, n: NodeId)
    | Found(fid: Fid, path: Path, n: NodeId)        // a node without flags; vnode_getwithvid is next
    | Initing(fid: Fid, path: Path, n: NodeId)      // has made the node; ngetdir_9p and vnode_create
    | MustClunk(fid: Fid)                           // back in vnop_lookup_9p with no use for the fid
    | Marked(n: NodeId)                             // vnop_reclaim_9p has set NODE_RECL
    | Unlisted(n: NodeId)                           // and taken the node off its chain
    | Finishing(n: NodeId)                          // and clunked its fid, or left it to the unmount

  datatype State = State(nodes: map<NodeId, Node>, phases: map<Thread, Phase>, nextFid: Fid, nextNode: NodeId,
                         clunked: set<Fid>, dropped: set<Fid>, unmounting: bool)

  const INIT := State(map[], map[], 0, 0, {}, {}, false)

  datatype Action =
    | Walk(path: Path)
    | Scan                  // the loop of nget_9p, under the table lock
    | NoMemory
    | GetsVnode | LosesVnode
    | InitDone | InitFails
    | Clunk
    | Reclaim(n: NodeId)
    | Unlist
    | ClunkNode | LeaveToUnmount
    | Finish
    | StartUnmount

  datatype Step = Step(t: Thread, a: Action)

  function PhaseOf(s: State, t: Thread): Phase { if t in s.phases then s.phases[t] else Idle }

  predicate Listed(s: State, n: NodeId, path: Path) { n in s.nodes && s.nodes[n].listed && s.nodes[n].path == path }

  /** msleep on node n ends for all its sleepers; they start over without looking at the node. */
  function WokenFrom(p: Phase, n: NodeId): Phase {
    match p
    case SleepsInit(fid, path, m) => if m == n then Walked(fid, path) else p
    case SleepsRecl(fid, path, m) => if m == n then Walked(fid, path) else p
    case _ => p
  }

  function Wake(phases: map<Thread, Phase>, n: NodeId): map<Thread, Phase> {
    map t | t in phases :: WokenFrom(phases[t], n)
  }

  function WakeIf(wake: bool, phases: map<Thread, Phase>, n: NodeId): map<Thread, Phase> {
    if wake then Wake(phases, n) else phases
  }

  ghost predicate Enabled(s: State, step: Step) {
    var p := PhaseOf(s, step.t);
    match step.a
    case Walk(_) => p.Idle?
    case Scan => p.Walked?
    case NoMemory => p.Walked? && !exists n :: Listed(s, n, p.path)
    case GetsVnode => p.Found? && p.n in s.nodes && !s.nodes[p.n].recl
    case LosesVnode => p.Found?
    case InitDone => p.Initing? && p.n in s.nodes
    case InitFails => p.Initing? && p.n in s.nodes
    case Clunk => p.MustClunk?
    case Reclaim(n) => p.Idle? && n in s.nodes && !s.nodes[n].init && !s.nodes[n].recl
    case Unlist => p.Marked? && p.n in s.nodes
    case ClunkNode => p.Unlisted? && p.n in s.nodes && !s.unmounting
    case LeaveToUnmount => p.Unlisted? && p.n in s.nodes && s.unmounting
    case Finish => p.Finishing? && p.n in s.nodes
    case StartUnmount => true
  }

  ghost function Apply(s: State, step: Step): State
    requires Enabled(s, step)
  {
    var t, p := step.t, PhaseOf(s, step.t);
    match step.a
    case Walk(path) => s.(phases := s.phases[t := Walked(s.nextFid, path)], nextFid := s.nextFid + 1)
    case Scan => Scanned(s, t, p.fid, p.path)
    case NoMemory => s.(phases := s.phases[t := MustClunk(p.fid)])
    case GetsVnode => s.(phases := s.phases[t := if s.nodes[p.n].fid != p.fid then MustClunk(p.fid) else Idle])
    case LosesVnode => s.(phases := s.phases[t := Walked(p.fid, p.path)])
    case InitDone =>
      var x := s.nodes[p.n];
      s.(nodes := s.nodes[p.n := x.(init := false, waitinit := false, owning := true)],
         phases := WakeIf(x.waitinit, s.phases, p.n)[t := Idle])
    case InitFails =>
      s.(nodes := s.nodes - {p.n}, phases := WakeIf(s.nodes[p.n].waitinit, s.phases, p.n)[t := MustClunk(p.fid)])
    case Clunk => s.(phases := s.phases[t := Idle], clunked := s.clunked + {p.fid})
    case Reclaim(n) => s.(nodes := s.nodes[n := s.nodes[n].(recl := true)], phases := s.phases[t := Marked(n)])
    case Unlist => s.(nodes := s.nodes[p.n := s.nodes[p.n].(listed := false)], phases := s.phases[t := Unlisted(p.n)])
    case ClunkNode =>
      var x := s.nodes[p.n];
      s.(nodes := s.nodes[p.n := x.(owning := false)], phases := s.phases[t := Finishing(p.n)],
        clunked := s.clunked + {x.fid})
    case LeaveToUnmount =>
      var x := s.nodes[p.n];
      s.(nodes := s.nodes[p.n := x.(owning := false)], phases := s.phases[t := Finishing(p.n)],
        dropped := s.dropped + {x.fid})
    case Finish =>
      s.(nodes := s.nodes - {p.n}, phases := WakeIf(s.nodes[p.n].waitrecl, s.phases, p.n)[t := Idle])
    case StartUnmount => s.(unmounting := true)
  }

  /** The listed node of that path, or none. */
  ghost function Hit(s: State, path: Path): (r: Option<NodeId>)
    ensures r.Some? ==> Listed(s, r.value, path)
    ensures r.None? ==> forall n :: !Listed(s, n, path)
  {
    if n: NodeId :| Listed(s, n, path) then Some(n) else None
  }

  /** What the loop does with it, or without one. */
  ghost function Scanned(s: State, t: Thread, fid: Fid, path: Path): State {
    if Hit(s, path).Some? then
      var n := Hit(s, path).value;
      var x := s.nodes[n];
      if x.init then s.(nodes := s.nodes[n := x.(waitinit := true)], phases := s.phases[t := SleepsInit(fid, path, n)])
      else if x.recl then s.(nodes := s.nodes[n := x.(waitrecl := true)],
        phases := s.phases[t := SleepsRecl(fid, path, n)])
      else s.(phases := s.phases[t := Found(fid, path, n)])
    else
      var n := s.nextNode;
      s.(nodes := s.nodes[n := Node(path, fid, true, false, false, false, true, false)], nextNode := n + 1,
         phases := s.phases[t := Initing(fid, path, n)])
  }

  // ----- invariants -----

  /** No two nodes on the chains have the same qid path. */
  ghost predicate UniquePaths(s: State) {
    forall m, n :: m in s.nodes && n in s.nodes && s.nodes[m].listed && s.nodes[n].listed && m != n ==>
      s.nodes[m].path != s.nodes[n].path
  }

  function WorksOn(p: Phase): int {
    match p
    case Initing(_, _, n) => n
    case Marked(n) => n
    case Unlisted(n) => n
    case Finishing(n) => n
    case _ => -1
  }

  /** What a thread may rely on about the node it deals with. A node found without flags may have gone since. */
  ghost predicate Fits(s: State, p: Phase) {
    match p
    case SleepsInit(_, _, n) => n in s.nodes && s.nodes[n].init && s.nodes[n].waitinit
    case SleepsRecl(_, _, n) => n in s.nodes && s.nodes[n].recl && s.nodes[n].waitrecl
    case Found(_, _, n) => n < s.nextNode && (n in s.nodes ==> !s.nodes[n].init)
    case Initing(fid, path, n) => n in s.nodes && s.nodes[n].init && s.nodes[n].fid == fid
    case Marked(n) => n in s.nodes && s.nodes[n].recl && s.nodes[n].listed && s.nodes[n].owning
    case Unlisted(n) => n in s.nodes && s.nodes[n].recl && !s.nodes[n].listed && s.nodes[n].owning
    case Finishing(n) => n in s.nodes && s.nodes[n].recl && !s.nodes[n].listed && !s.nodes[n].owning
    case _ => true
  }

  /** A node being initialised or reclaimed has a thread at work on it, and flags that go together. */
  ghost predicate Sane(x: Node) {
    && (x.init ==> x.listed && !x.recl && !x.owning)
    && (x.waitinit ==> x.init) && (x.waitrecl ==> x.recl) && (!x.listed ==> x.recl) && (!x.owning ==> x.init || x.recl)
  }

  ghost predicate Worked(s: State, n: NodeId) { exists t :: WorksOn(PhaseOf(s, t)) == n }

  ghost predicate Attended(s: State) {
    && (forall t :: Fits(s, PhaseOf(s, t)))
    && (forall t, u :: WorksOn(PhaseOf(s, t)) == WorksOn(PhaseOf(s, u)) >= 0 ==> t == u)
    && (forall n :: n in s.nodes ==> n < s.nextNode && Sane(s.nodes[n]))
    && (forall n :: n in s.nodes && (s.nodes[n].init || s.nodes[n].recl) ==> Worked(s, n))
  }

  /** The fid a thread has walked and neither clunked nor handed to a node for good; -1 for none. */
  function Carries(p: Phase): int {
    match p
    case Walked(fid, _) => fid
    case SleepsInit(fid, _, _) => fid
    case SleepsRecl(fid, _, _) => fid
    case Found(fid, _, _) => fid
    case Initing(fid, _, _) => fid
    case MustClunk(fid) => fid
    case _ => -1
  }

  function CarriedBy(s: State, t: Thread): int { Carries(PhaseOf(s, t)) }
  function OwnedBy(s: State, n: NodeId): int { if n in s.nodes && s.nodes[n].owning then s.nodes[n].fid else -1 }

  /** Every fid below next is carried by one thread, or owned by one node, or clunked, or dropped; one of these
      and no more. */
  ghost predicate Ledger(carried: Thread -> int, owned: NodeId -> int, clunked: set<Fid>, dropped: set<Fid>,
      next: Fid) {
    && (forall t :: -1 <= carried(t) < next && carried(t) !in clunked && carried(t) !in dropped)
    && (forall n :: -1 <= owned(n) < next && owned(n) !in clunked && owned(n) !in dropped)
    && (forall t, u :: carried(t) == carried(u) >= 0 ==> t == u)
    && (forall m, n :: owned(m) == owned(n) >= 0 ==> m == n)
    && (forall t, n :: carried(t) >= 0 ==> carried(t) != owned(n))
    && clunked !! dropped
    && (forall f :: f in clunked || f in dropped ==> f < next)
    && (forall f :: 0 <= f < next ==> f in clunked || f in dropped || Held(carried, f) || Held(owned, f))
  }

  ghost predicate Held(holders: nat -> int, f: int) { exists h :: holders(h) == f }

  function CarriedIn(s: State): Thread -> int { (t: Thread) => CarriedBy(s, t) }
  function OwnedIn(s: State): NodeId -> int { (n: NodeId) => OwnedBy(s, n) }

  ghost predicate Accounted(s: State) { Ledger(CarriedIn(s), OwnedIn(s), s.clunked, s.dropped, s.nextFid) }

  ghost predicate Inv(s: State) { UniquePaths(s) && Attended(s) && Accounted(s) }

  // ----- phases after a step -----

  ghost function WakesOn(s: State, step: Step): int
    requires Enabled(s, step)
  {
    var p := PhaseOf(s, step.t);
    if (step.a.InitDone? || step.a.InitFails?) && s.nodes[p.n].waitinit then p.n
    else if step.a.Finish? && s.nodes[p.n].waitrecl then p.n
    else -1
  }

  lemma PhaseAfter(s: State, step: Step, u: Thread)
    requires Enabled(s, step) && u != step.t
    ensures PhaseOf(Apply(s, step), u) == if WakesOn(s, step) >= 0 then WokenFrom(PhaseOf(s, u), WakesOn(s, step))
      else PhaseOf(s, u)
    ensures WorksOn(PhaseOf(Apply(s, step), u)) == WorksOn(PhaseOf(s, u)) &&
      Carries(PhaseOf(Apply(s, step), u)) == Carries(PhaseOf(s, u))
  {}

  /** What a step does to the nodes: at most one changes, is made, or goes. */
  ghost function Touches(s: State, step: Step): int
    requires Enabled(s, step)
  {
    var p := PhaseOf(s, step.t);
    match step.a
    case Scan => if Hit(s, p.path).Some? then Hit(s, p.path).value else s.nextNode
    case InitDone => p.n
    case InitFails => p.n
    case Reclaim(n) => n
    case Unlist => p.n
    case ClunkNode => p.n
    case LeaveToUnmount => p.n
    case Finish => p.n
    case _ => -1
  }

  lemma OthersUntouched(s: State, step: Step, n: NodeId)
    requires Enabled(s, step) && n != Touches(s, step)
    ensures n in Apply(s, step).nodes <==> n in s.nodes
    ensures n in s.nodes ==> Apply(s, step).nodes[n] == s.nodes[n]
  {}

  // ----- unique paths -----

  /** Only a scan that finds no node lists one, and it gives it a path no listed node has. */
  lemma PathBefore(s: State, step: Step, n: NodeId)
    requires Inv(s) && Enabled(s, step) && n in Apply(s, step).nodes && Apply(s, step).nodes[n].listed
    ensures Listed(s, n, Apply(s, step).nodes[n].path) ||
      (n == s.nextNode && forall m :: !Listed(s, m, Apply(s, step).nodes[n].path))
  {
    if n != Touches(s, step) { OthersUntouched(s, step, n); }
  }

  lemma PathsKept(s: State, step: Step)
    requires Inv(s) && Enabled(s, step)
    ensures UniquePaths(Apply(s, step))
  {
    var s' := Apply(s, step);
    forall m, n | m in s'.nodes && n in s'.nodes && s'.nodes[m].listed && s'.nodes[n].listed && m != n
      ensures s'.nodes[m].path != s'.nodes[n].path
    {
      PathBefore(s, step, m);
      PathBefore(s, step, n);
    }
  }

  // ----- fids: how the ledger moves -----

  /** after is before, but for h. */
  ghost predicate Differs(before: nat -> int, after: nat -> int, h: nat, f: int) {
    after(h) == f && forall k :: k != h ==> after(k) == before(k)
  }

  ghost predicate SameAs(before: nat -> int, after: nat -> int) { forall k :: after(k) == before(k) }

  lemma HeldKept(before: nat -> int, after: nat -> int, h: nat, f: int, g: int)
    requires Differs(before, after, h, f) && Held(before, g) && before(h) != g
    ensures Held(after, g)
  {
    var k :| before(k) == g;
    assert after(k) == g;
  }

  lemma HeldSame(before: nat -> int, after: nat -> int, g: int)
    requires SameAs(before, after) && Held(before, g)
    ensures Held(after, g)
  {
    var k :| before(k) == g;
    assert after(k) == g;
  }

  lemma Obtained(c: nat -> int, c': nat -> int, o: nat -> int, o': nat -> int, clunked: set<Fid>, dropped: set<Fid>,
      next: Fid, t: Thread)
    requires Ledger(c, o, clunked, dropped, next) && c(t) == -1 && Differs(c, c', t, next) && SameAs(o, o')
    ensures Ledger(c', o', clunked, dropped, next + 1)
  {
    assert c'(t) == next;
    forall f | 0 <= f < next + 1 ensures f in clunked || f in dropped || Held(c', f) || Held(o', f) {
      if f < next && Held(c, f) { HeldKept(c, c', t, next, f); }
      if f < next && Held(o, f) { HeldSame(o, o', f); }
    }
  }

  lemma Clunks(c: nat -> int, c': nat -> int, o: nat -> int, o': nat -> int, clunked: set<Fid>, dropped: set<Fid>,
      next: Fid, t: Thread, f: Fid)
    requires Ledger(c, o, clunked, dropped, next) && c(t) == f && Differs(c, c', t, -1) && SameAs(o, o')
    ensures Ledger(c', o', clunked + {f}, dropped, next)
  {
    forall g | 0 <= g < next ensures g in clunked + {f} || g in dropped || Held(c', g) || Held(o', g) {
      if g != f && Held(c, g) { HeldKept(c, c', t, -1, g); }
      if Held(o, g) { HeldSame(o, o', g); }
    }
  }

  lemma Hands(c: nat -> int, c': nat -> int, o: nat -> int, o': nat -> int, clunked: set<Fid>, dropped: set<Fid>,
      next: Fid, t: Thread, n: NodeId, f: Fid)
    requires Ledger(c, o, clunked, dropped, next) && c(t) == f && o(n) == -1 && Differs(c, c', t, -1) &&
      Differs(o, o', n, f)
    ensures Ledger(c', o', clunked, dropped, next)
  {
    assert o'(n) == f;
    forall g | 0 <= g < next ensures g in clunked || g in dropped || Held(c', g) || Held(o', g) {
      if g != f && Held(c, g) { HeldKept(c, c', t, -1, g); }
      if Held(o, g) { HeldKept(o, o', n, f, g); }
    }
  }

  lemma NodeGivesUp(c: nat -> int, c': nat -> int, o: nat -> int, o': nat -> int, clunked: set<Fid>, dropped: set<Fid>,
      next: Fid, n: NodeId, f: Fid)
    requires Ledger(c, o, clunked, dropped, next) && o(n) == f && SameAs(c, c') && Differs(o, o', n, -1)
    ensures Ledger(c', o', clunked + {f}, dropped, next) && Ledger(c', o', clunked, dropped + {f}, next)
  {
    forall g | 0 <= g < next && g != f ensures g in clunked || g in dropped || Held(c', g) || Held(o', g) {
      if Held(c, g) { HeldSame(c, c', g); }
      if Held(o, g) { HeldKept(o, o', n, -1, g); }
    }
  }

  lemma Unmoved(c: nat -> int, c': nat -> int, o: nat -> int, o': nat -> int, clunked: set<Fid>, dropped: set<Fid>,
      next: Fid)
    requires Ledger(c, o, clunked, dropped, next) && SameAs(c, c') && SameAs(o, o')
    ensures Ledger(c', o', clunked, dropped, next)
  {
    forall g | 0 <= g < next ensures g in clunked || g in dropped || Held(c', g) || Held(o', g) {
      if Held(c, g) { HeldSame(c, c', g); }
      if Held(o, g) { HeldSame(o, o', g); }
    }
  }

  // ----- fids: which step moves what -----

  lemma OthersCarry(s: State, step: Step, f: int)
    requires Enabled(s, step) && CarriedBy(Apply(s, step), step.t) == f
    ensures Differs(CarriedIn(s), CarriedIn(Apply(s, step)), step.t, f)
    ensures f == CarriedBy(s, step.t) ==> SameAs(CarriedIn(s), CarriedIn(Apply(s, step)))
  {
    forall u: Thread | u != step.t ensures CarriedIn(Apply(s, step))(u) == CarriedIn(s)(u) { PhaseAfter(s, step, u); }
  }

  /** The thread's own fid after the step. */
  lemma OwnCarry(s: State, step: Step)
    requires Inv(s) && Enabled(s, step)
    ensures var f := CarriedBy(Apply(s, step), step.t);
      if step.a.Walk? then f == s.nextFid && CarriedBy(s, step.t) == -1
      else if step.a.Clunk? || step.a.InitDone? then f == -1 && CarriedBy(s, step.t) >= 0
      else f == CarriedBy(s, step.t)
  {
    var t, p := step.t, PhaseOf(s, step.t);
    if step.a.GetsVnode? { NotItsOwn(s, t); }
  }

  /** A node that is found has a fid of its own. */
  lemma NotItsOwn(s: State, t: Thread)
    requires Inv(s) && PhaseOf(s, t).Found? && PhaseOf(s, t).n in s.nodes && !s.nodes[PhaseOf(s, t).n].recl
    ensures s.nodes[PhaseOf(s, t).n].fid != PhaseOf(s, t).fid
  {
    var p := PhaseOf(s, t);
    assert Fits(s, p) && Sane(s.nodes[p.n]);
    assert CarriedIn(s)(t) == p.fid && OwnedIn(s)(p.n) == s.nodes[p.n].fid;
  }

  lemma OwnerGains(s: State, t: Thread)
    requires Inv(s) && Enabled(s, Step(t, InitDone))
    ensures var p := PhaseOf(s, t);
      Differs(OwnedIn(s), OwnedIn(Apply(s, Step(t, InitDone))), p.n, p.fid) && OwnedBy(s, p.n) == -1
  {
    var p := PhaseOf(s, t);
    assert Fits(s, p) && Sane(s.nodes[p.n]);
  }

  lemma OwnerLoses(s: State, t: Thread, a: Action)
    requires Inv(s) && (a.ClunkNode? || a.LeaveToUnmount?) && Enabled(s, Step(t, a))
    ensures var n := PhaseOf(s, t).n;
      Differs(OwnedIn(s), OwnedIn(Apply(s, Step(t, a))), n, -1) && OwnedBy(s, n) == s.nodes[n].fid
  {
    assert Fits(s, PhaseOf(s, t));
  }

  lemma OwnerStays(s: State, step: Step, n: NodeId)
    requires Inv(s) && Enabled(s, step) && !step.a.InitDone? && !step.a.ClunkNode? && !step.a.LeaveToUnmount?
    ensures OwnedBy(Apply(s, step), n) == OwnedBy(s, n)
  {
    assert Fits(s, PhaseOf(s, step.t));
    if n != Touches(s, step) { OthersUntouched(s, step, n); } else if n in s.nodes { assert Sane(s.nodes[n]); }
  }

  lemma OwnersStay(s: State, step: Step)
    requires Inv(s) && Enabled(s, step) && !step.a.InitDone? && !step.a.ClunkNode? && !step.a.LeaveToUnmount?
    ensures SameAs(OwnedIn(s), OwnedIn(Apply(s, step)))
  {
    forall n ensures OwnedIn(Apply(s, step))(n) == OwnedIn(s)(n) { OwnerStays(s, step, n); }
  }

  lemma FidsKept(s: State, step: Step)
    requires Inv(s) && Enabled(s, step)
    ensures Accounted(Apply(s, step))
  {
    var s', t, p := Apply(s, step), step.t, PhaseOf(s, step.t);
    var c, c', o, o' := CarriedIn(s), CarriedIn(s'), OwnedIn(s), OwnedIn(s');
    OwnCarry(s, step);
    OthersCarry(s, step, CarriedBy(s', t));
    if step.a.InitDone? {
      OwnerGains(s, t);
      Hands(c, c', o, o', s.clunked, s.dropped, s.nextFid, t, p.n, p.fid);
    } else if step.a.ClunkNode? || step.a.LeaveToUnmount? {
      OwnerLoses(s, t, step.a);
      NodeGivesUp(c, c', o, o', s.clunked, s.dropped, s.nextFid, p.n, s.nodes[p.n].fid);
    } else {
      OwnersStay(s, step);
      if step.a.Walk? {
        Obtained(c, c', o, o', s.clunked, s.dropped, s.nextFid, t);
      } else if step.a.Clunk? {
        Clunks(c, c', o, o', s.clunked, s.dropped, s.nextFid, t, p.fid);
      } else {
        Unmoved(c, c', o, o', s.clunked, s.dropped, s.nextFid);
      }
    }
  }

  // ----- nodes, their workers and their sleepers -----

  lemma NodesSane(s: State, step: Step)
    requires Inv(s) && Enabled(s, step)
    ensures forall n :: n in Apply(s, step).nodes ==> n < Apply(s, step).nextNode && Sane(Apply(s, step).nodes[n])
  {
    assert Fits(s, PhaseOf(s, step.t));
    forall n | n in Apply(s, step).nodes ensures n < Apply(s, step).nextNode && Sane(Apply(s, step).nodes[n]) {
      if n != Touches(s, step) { OthersUntouched(s, step, n); } else if n in s.nodes { assert Sane(s.nodes[n]); }
    }
  }

  /** The thread that takes the step still fits the node it deals with. */
  lemma SelfFits(s: State, step: Step)
    requires Inv(s) && Enabled(s, step)
    ensures Fits(Apply(s, step), PhaseOf(Apply(s, step), step.t))
  {
    var p := PhaseOf(s, step.t);
    assert Fits(s, p);
    if step.a.Reclaim? { assert Sane(s.nodes[step.a.n]); }
    if step.a.Scan? {
      if Hit(s, p.path).Some? { assert Sane(s.nodes[Hit(s, p.path).value]); }
    }
  }

  /** The node Fits looks at. */
  function Concerns(p: Phase): int {
    match p
    case SleepsInit(_, _, n) => n
    case SleepsRecl(_, _, n) => n
    case Found(_, _, n) => n
    case _ => WorksOn(p)
  }

  lemma ApartFit(s: State, step: Step, u: Thread)
    requires Inv(s) && Enabled(s, step) && u != step.t && Concerns(PhaseOf(s, u)) != Touches(s, step)
    ensures Fits(Apply(s, step), PhaseOf(Apply(s, step), u))
  {
    var n := Concerns(PhaseOf(s, u));
    assert Fits(s, PhaseOf(s, u));
    PhaseAfter(s, step, u);
    if n >= 0 { OthersUntouched(s, step, n); }
  }

  lemma ConcernedFit(s: State, step: Step, u: Thread)
    requires Inv(s) && Enabled(s, step) && u != step.t && Concerns(PhaseOf(s, u)) == Touches(s, step)
    ensures Fits(Apply(s, step), PhaseOf(Apply(s, step), u))
  {
    var p, q := PhaseOf(s, step.t), PhaseOf(s, u);
    PhaseAfter(s, step, u);
    assert Fits(s, q) && Fits(s, p);
    assert WorksOn(q) >= 0 ==> WorksOn(q) != WorksOn(p);
    var n := Concerns(q);
    if n >= 0 && n in s.nodes { assert Sane(s.nodes[n]); }
  }

  /** And so do the others: the node under a sleeper changes only at its worker's hands, which wake it. */
  lemma OthersFit(s: State, step: Step, u: Thread)
    requires Inv(s) && Enabled(s, step) && u != step.t
    ensures Fits(Apply(s, step), PhaseOf(Apply(s, step), u))
  {
    if Concerns(PhaseOf(s, u)) == Touches(s, step) { ConcernedFit(s, step, u); } else { ApartFit(s, step, u); }
  }

  /** The node under a worker has a flag set, so nget_9p leaves it alone and vnop_reclaim_9p is not called for it. */
  lemma Workable(s: State, t: Thread)
    requires Inv(s)
    ensures var n := WorksOn(PhaseOf(s, t));
      n >= 0 ==> n < s.nextNode && n in s.nodes && (s.nodes[n].init || s.nodes[n].recl)
  {
    assert Fits(s, PhaseOf(s, t));
  }

  /** A thread starts to work only on a node that nobody works on: a new one, or one without flags. */
  lemma OwnWork(s: State, step: Step)
    requires Inv(s) && Enabled(s, step)
    ensures var n := WorksOn(PhaseOf(Apply(s, step), step.t));
      n >= 0 && n != WorksOn(PhaseOf(s, step.t)) ==>
      n == s.nextNode || (n in s.nodes && !s.nodes[n].init && !s.nodes[n].recl)
  {}

  lemma WorkersDistinct(s: State, step: Step, u: Thread)
    requires Inv(s) && Enabled(s, step) && u != step.t
    requires WorksOn(PhaseOf(Apply(s, step), u)) >= 0
    ensures WorksOn(PhaseOf(Apply(s, step), u)) != WorksOn(PhaseOf(Apply(s, step), step.t))
  {
    PhaseAfter(s, step, u);
    Workable(s, u);
    OwnWork(s, step);
  }

  /** A node with a flag that the step's thread does not work on afterwards had one before, and another worker. */
  lemma FlagsElsewhere(s: State, step: Step, n: NodeId)
    requires Inv(s) && Enabled(s, step) && WorksOn(PhaseOf(Apply(s, step), step.t)) != n
    requires n in Apply(s, step).nodes && (Apply(s, step).nodes[n].init || Apply(s, step).nodes[n].recl)
    ensures n in s.nodes && (s.nodes[n].init || s.nodes[n].recl) && WorksOn(PhaseOf(s, step.t)) != n
  {
    assert Fits(s, PhaseOf(s, step.t));
    if n != Touches(s, step) { OthersUntouched(s, step, n); } else if n in s.nodes { assert Sane(s.nodes[n]); }
  }

  lemma StillWorked(s: State, step: Step, n: NodeId)
    requires Inv(s) && Enabled(s, step)
    requires n in Apply(s, step).nodes && (Apply(s, step).nodes[n].init || Apply(s, step).nodes[n].recl)
    ensures Worked(Apply(s, step), n)
  {
    var s' := Apply(s, step);
    if WorksOn(PhaseOf(s', step.t)) == n {
    } else {
      FlagsElsewhere(s, step, n);
      var u: Thread :| WorksOn(PhaseOf(s, u)) == n;
      PhaseAfter(s, step, u);
      assert WorksOn(PhaseOf(s', u)) == n;
    }
  }

  lemma AttendedKept(s: State, step: Step)
    requires Inv(s) && Enabled(s, step)
    ensures Attended(Apply(s, step))
  {
    var s' := Apply(s, step);
    forall t ensures Fits(s', PhaseOf(s', t)) {
      if t == step.t { SelfFits(s, step); } else { OthersFit(s, step, t); }
    }
    forall t, u | WorksOn(PhaseOf(s', t)) == WorksOn(PhaseOf(s', u)) >= 0 ensures t == u {
      if t != step.t { PhaseAfter(s, step, t); WorkersDistinct(s, step, t); }
      if u != step.t { PhaseAfter(s, step, u); WorkersDistinct(s, step, u); }
    }
    NodesSane(s, step);
    forall n | n in s'.nodes && (s'.nodes[n].init || s'.nodes[n].recl)
      ensures Worked(s', n)
    {
      StillWorked(s, step, n);
    }
  }

  // ----- every run -----

  lemma StepKeeps(s: State, step: Step)
    requires Inv(s) && Enabled(s, step)
    ensures Inv(Apply(s, step))
  {
    PathsKept(s, step);
    AttendedKept(s, step);
    FidsKept(s, step);
  }

  lemma Initially()
    ensures Inv(INIT)
  {
    assert UniquePaths(INIT);
    assert Accounted(INIT) by { StartLedger(CarriedIn(INIT), OwnedIn(INIT)); }
    AllIdle(INIT);
  }

  lemma AllIdle(s: State)
    requires s.phases == map[] && s.nodes == map[]
    ensures Attended(s)
  {}

  lemma StartLedger(carried: nat -> int, owned: nat -> int)
    requires (forall t :: carried(t) == -1) && (forall n :: owned(n) == -1)
    ensures Ledger(carried, owned, {}, {}, 0)
  {}

  ghost predicate Possible(s: State, steps: seq<Step>)
    decreases |steps|
  {
    steps == [] || (Enabled(s, steps[0]) && Possible(Apply(s, steps[0]), steps[1..]))
  }

  ghost function Run(s: State, steps: seq<Step>): State
    requires Possible(s, steps)
    decreases |steps|
  {
    if steps == [] then s else Run(Apply(s, steps[0]), steps[1..])
  }

  lemma {:induction false} AllRuns(s: State, steps: seq<Step>)
    requires Inv(s) && Possible(s, steps)
    ensures Inv(Run(s, steps))
    decreases |steps|
  {
    if steps != [] {
      StepKeeps(s, steps[0]);
      AllRuns(Apply(s, steps[0]), steps[1..]);
    }
  }

  // ----- what the steps of a lookup lead to -----

  /** A scan finds the listed node of the path, if there is one, and takes it only if nobody is at work on it; where
      somebody is, it leaves its wish and sleeps. If there is none it makes one. */
  lemma ScanFinds(s: State, t: Thread)
    requires Inv(s) && Enabled(s, Step(t, Scan))
    ensures var p, s', q := PhaseOf(s, t), Apply(s, Step(t, Scan)), PhaseOf(Apply(s, Step(t, Scan)), t);
      && (q.Found? || q.SleepsInit? || q.SleepsRecl? || q.Initing?) && q.fid == p.fid && q.path == p.path
      && (q.Initing? <==> forall n :: !Listed(s, n, p.path))
      && (q.Initing? ==> q.n !in s.nodes && Listed(s', q.n, p.path) && s'.nodes[q.n].init && s'.nodes[q.n].fid == p.fid)
      && (!q.Initing? ==> Listed(s, q.n, p.path))
      && (q.Found? ==> !s.nodes[q.n].init && !s.nodes[q.n].recl && s'.nodes == s.nodes)
      && (q.SleepsInit? ==> s.nodes[q.n].init && s'.nodes[q.n].waitinit)
      && (q.SleepsRecl? ==> s.nodes[q.n].recl && s'.nodes[q.n].waitrecl)
  {
    var p := PhaseOf(s, t);
    if Hit(s, p.path).Some? { assert Listed(s, Hit(s, p.path).value, p.path); }
    if Hit(s, p.path).None? { assert s.nextNode !in s.nodes; }
  }

  /** A lookup that gets the vnode of the node it has found leaves the node as it is and clunks its own fid; one that
      does not looks again, with the fid and the path it had. */
  lemma FoundGoesOn(s: State, t: Thread)
    requires Inv(s) && PhaseOf(s, t).Found?
    ensures var p, s' := PhaseOf(s, t), Apply(s, Step(t, LosesVnode));
      PhaseOf(s', t) == Walked(p.fid, p.path) && s'.nodes == s.nodes
    ensures Enabled(s, Step(t, GetsVnode)) ==>
      var s' := Apply(s, Step(t, GetsVnode)); PhaseOf(s', t) == MustClunk(PhaseOf(s, t).fid) && s'.nodes == s.nodes
  {
    if Enabled(s, Step(t, GetsVnode)) { NotItsOwn(s, t); }
  }

  /** The end of initialising: with a vnode the node stays, with the lookup's fid as its own and no flag; without one
      it goes, and the fid must be clunked. */
  lemma InitEnds(s: State, t: Thread)
    requires Inv(s) && PhaseOf(s, t).Initing?
    ensures var p := PhaseOf(s, t);
      var s', s'' := Apply(s, Step(t, InitDone)), Apply(s, Step(t, InitFails));
      && PhaseOf(s', t) == Idle && p.n in s'.nodes && s'.nodes[p.n].listed && s'.nodes[p.n].owning
      && s'.nodes[p.n].fid == p.fid && !s'.nodes[p.n].init && !s'.nodes[p.n].recl
      && PhaseOf(s'', t) == MustClunk(p.fid) && p.n !in s''.nodes
  {
    assert Fits(s, PhaseOf(s, t)) && Sane(s.nodes[PhaseOf(s, t).n]);
  }

  /** Without memory the lookup comes back with its fid and leaves the table as it is; and a fid it has no use for it
      clunks, and is done. */
  lemma NoUseForIt(s: State, t: Thread)
    ensures Enabled(s, Step(t, NoMemory)) ==>
      var s' := Apply(s, Step(t, NoMemory)); PhaseOf(s', t) == MustClunk(PhaseOf(s, t).fid) && s'.nodes == s.nodes
    ensures Enabled(s, Step(t, Clunk)) ==>
      var s' := Apply(s, Step(t, Clunk));
      PhaseOf(s', t) == Idle && PhaseOf(s, t).fid in s'.clunked && s'.nodes == s.nodes
  {}

  /** A reclaim marks the node and takes it off its chain. */
  lemma ReclaimUnlists(s: State, t: Thread, n: NodeId)
    requires Inv(s)
    ensures Enabled(s, Step(t, Reclaim(n))) ==>
      var s' := Apply(s, Step(t, Reclaim(n))); PhaseOf(s', t) == Marked(n) && s'.nodes[n].recl && s'.nodes[n].listed
    ensures Enabled(s, Step(t, Unlist)) ==>
      var m, s' := PhaseOf(s, t).n, Apply(s, Step(t, Unlist)); PhaseOf(s', t) == Unlisted(m) && !s'.nodes[m].listed
  {}

  /** It clunks the fid of the node, or leaves it to the unmount, and frees the node. */
  lemma ReclaimGoes(s: State, t: Thread)
    ensures Enabled(s, Step(t, ClunkNode)) ==>
      var m, s' := PhaseOf(s, t).n, Apply(s, Step(t, ClunkNode));
      PhaseOf(s', t) == Finishing(m) && s'.clunked == s.clunked + {s.nodes[m].fid} && s'.dropped == s.dropped
    ensures Enabled(s, Step(t, LeaveToUnmount)) ==>
      var m, s' := PhaseOf(s, t).n, Apply(s, Step(t, LeaveToUnmount));
      PhaseOf(s', t) == Finishing(m) && s'.dropped == s.dropped + {s.nodes[m].fid} && s'.clunked == s.clunked
    ensures Enabled(s, Step(t, Finish)) ==>
      var m, s' := PhaseOf(s, t).n, Apply(s, Step(t, Finish)); PhaseOf(s', t) == Idle && s'.nodes == s.nodes - {m}
  {}

  /** A sleeper that is woken looks again, with the fid and the path it had. */
  lemma WokenLooksAgain(p: Phase, n: NodeId)
    requires SleepsOn(p, n)
    ensures WokenFrom(p, n) == Walked(p.fid, p.path)
  {}

  // ----- no missed wakeup -----

  predicate SleepsOn(p: Phase, n: NodeId) { (p.SleepsInit? || p.SleepsRecl?) && p.n == n }

  /** How many steps a worker is away from leaving its node, and waking those who sleep on it. */
  function StepsLeft(p: Phase): nat {
    match p
    case Initing(_, _, _) => 1
    case Marked(_) => 3
    case Unlisted(_) => 2
    case Finishing(_) => 1
    case _ => 0
  }

  function TakenBy(u: Thread, steps: seq<Step>): nat
    decreases |steps|
  {
    if steps == [] then 0 else (if steps[0].t == u && !steps[0].a.StartUnmount? then 1 else 0) + TakenBy(u, steps[1..])
  }

  /** Some time in the run t is awake again and about to look for its node anew. */
  ghost predicate WakesWithin(s: State, t: Thread, steps: seq<Step>)
    requires Possible(s, steps)
    decreases |steps|
  {
    PhaseOf(s, t).Walked? || (steps != [] && WakesWithin(Apply(s, steps[0]), t, steps[1..]))
  }

  /** Under each sleeper another thread is at work, and nothing on the table keeps it from its next step. */
  lemma SleeperHasWorker(s: State, t: Thread, n: NodeId)
    requires Inv(s) && SleepsOn(PhaseOf(s, t), n)
    ensures exists u :: u != t && WorksOn(PhaseOf(s, u)) == n && CanStep(s, u)
  {
    assert Fits(s, PhaseOf(s, t)) && Worked(s, n);
    var u: Thread :| WorksOn(PhaseOf(s, u)) == n;
    var p := PhaseOf(s, u);
    assert Fits(s, p);
    assert Enabled(s, Step(u, if p.Initing? then InitDone else if p.Marked? then Unlist else if p.Finishing? then Finish
                              else if s.unmounting then LeaveToUnmount else ClunkNode));
    assert u != t && WorksOn(PhaseOf(s, u)) == n && CanStep(s, u);
  }

  ghost predicate CanStep(s: State, u: Thread) { exists a: Action :: !a.StartUnmount? && Enabled(s, Step(u, a)) }

  /** A step of the worker wakes the sleeper or is one of the few before that; other steps change nothing here. */
  lemma OneStepNearer(s: State, step: Step, t: Thread, u: Thread, n: NodeId)
    requires Inv(s) && Enabled(s, step) && SleepsOn(PhaseOf(s, t), n) && WorksOn(PhaseOf(s, u)) == n
    ensures var s' := Apply(s, step);
      || PhaseOf(s', t).Walked?
      || (SleepsOn(PhaseOf(s', t), n) && WorksOn(PhaseOf(s', u)) == n
          && StepsLeft(PhaseOf(s', u)) + TakenBy(u, [step]) == StepsLeft(PhaseOf(s, u)))
  {
    assert TakenBy(u, [step]) == (if step.t == u && !step.a.StartUnmount? then 1 else 0);
    assert Fits(s, PhaseOf(s, t)) && Fits(s, PhaseOf(s, u)) && Sane(s.nodes[n]);
    if !step.a.StartUnmount? {
      PhaseAfter(s, step, t);
      if step.t != u { PhaseAfter(s, step, u); }
    }
  }

  lemma {:induction false} SleepersWake(s: State, t: Thread, u: Thread, n: NodeId, steps: seq<Step>)
    requires Inv(s) && Possible(s, steps) && SleepsOn(PhaseOf(s, t), n) && WorksOn(PhaseOf(s, u)) == n
    requires TakenBy(u, steps) >= StepsLeft(PhaseOf(s, u))
    ensures WakesWithin(s, t, steps)
    decreases |steps|
  {
    assert StepsLeft(PhaseOf(s, u)) > 0;
    var s' := Apply(s, steps[0]);
    OneStepNearer(s, steps[0], t, u, n);
    StepKeeps(s, steps[0]);
    if PhaseOf(s', t).Walked? {
      assert WakesWithin(s', t, steps[1..]);
    } else {
      SleepersWake(s', t, u, n, steps[1..]);
    }
  }

  // ----- the fate of each fid -----

  /** A step clunks a fid that has not been clunked before, and only that one. */
  lemma ClunkedOnce(s: State, step: Step)
    requires Inv(s) && Enabled(s, step)
    ensures Apply(s, step).clunked - s.clunked ==
      if step.a.Clunk? then {PhaseOf(s, step.t).fid} else if step.a.ClunkNode? then {s.nodes[PhaseOf(s, step.t).n].fid}
        else {}
  {
    if step.a.Clunk? { assert CarriedIn(s)(step.t) == PhaseOf(s, step.t).fid; }
    if step.a.ClunkNode? {
      OwnerLoses(s, step.t, step.a);
      assert OwnedIn(s)(PhaseOf(s, step.t).n) == s.nodes[PhaseOf(s, step.t).n].fid;
    }
  }

  /** A clunked fid is in nobody's hands. */
  lemma ClunkedIsGone(s: State, f: Fid)
    requires Accounted(s) && f in s.clunked
    ensures f !in s.dropped && (forall u :: CarriedBy(s, u) != f) && forall n :: OwnedBy(s, n) != f
  {
    forall u ensures CarriedBy(s, u) != f { assert CarriedIn(s)(u) == CarriedBy(s, u); }
    forall n ensures OwnedBy(s, n) != f { assert OwnedIn(s)(n) == OwnedBy(s, n); }
  }

  lemma {:induction false} StaysMounted(s: State, steps: seq<Step>)
    requires Possible(s, steps) && !s.unmounting && forall k :: 0 <= k < |steps| ==> !steps[k].a.StartUnmount?
    ensures !Run(s, steps).unmounting && Run(s, steps).dropped == s.dropped
    decreases |steps|
  {
    if steps != [] { StaysMounted(Apply(s, steps[0]), steps[1..]); }
  }

  ghost predicate OwnedByOne(s: State, f: Fid) {
    exists n :: OwnedBy(s, n) == f && forall m :: OwnedBy(s, m) == f ==> m == n
  }

  lemma IdleFates(s: State, f: Fid)
    requires Accounted(s) && s.dropped == {} && f < s.nextFid && forall t :: PhaseOf(s, t).Idle?
    ensures (f in s.clunked) != OwnedByOne(s, f)
  {
    var c, o := CarriedIn(s), OwnedIn(s);
    assert forall t :: c(t) == -1;
    if f in s.clunked {
      forall n ensures OwnedBy(s, n) != f { assert o(n) != f; }
    } else {
      assert Held(o, f);
      var n :| o(n) == f;
      forall m | OwnedBy(s, m) == f ensures m == n { assert o(m) == f; }
      assert OwnedBy(s, n) == f;
    }
  }

  /** While the file system stays mounted: once every lookup and reclaim is through, each fid a lookup has walked
      is clunked, or it is owned by exactly one node; not both. */
  lemma EveryFidAccounted(steps: seq<Step>, f: Fid)
    requires Possible(INIT, steps) && forall k :: 0 <= k < |steps| ==> !steps[k].a.StartUnmount?
    requires f < Run(INIT, steps).nextFid && forall t :: PhaseOf(Run(INIT, steps), t).Idle?
    ensures (f in Run(INIT, steps).clunked) != OwnedByOne(Run(INIT, steps), f)
  {
    Initially();
    AllRuns(INIT, steps);
    StaysMounted(INIT, steps);
    IdleFates(Run(INIT, steps), f);
  }

  // ----- a node found and lost -----

  /** Some step of the run frees node n at the end of its reclaim. */
  ghost predicate Frees(s: State, steps: seq<Step>, n: NodeId)
    requires Possible(s, steps)
    decreases |steps|
  {
    steps != [] && ((steps[0].a.Finish? && PhaseOf(s, steps[0].t).n == n) || Frees(Apply(s, steps[0]), steps[1..], n))
  }

  /** An initialised node goes with the end of its reclaim, and with no other step; its number is not given out
      again. */
  lemma NodeGoes(s: State, step: Step, n: NodeId)
    requires Inv(s) && Enabled(s, step) && n < s.nextNode && (n in s.nodes ==> !s.nodes[n].init)
    ensures var s' := Apply(s, step);
      n < s'.nextNode && (n in s'.nodes ==> !s'.nodes[n].init)
      && (n in s'.nodes <==> n in s.nodes && !(step.a.Finish? && PhaseOf(s, step.t).n == n))
  {
    assert Fits(s, PhaseOf(s, step.t));
    if n != Touches(s, step) { OthersUntouched(s, step, n); }
  }

  /** vnop_reclaim_9p does not wait for those who have found its node: between giving up the table lock and
      vnode_getwithvid the node is still there if and only if no reclaim of it has ended meanwhile. */
  lemma {:induction false} StaysExactly(s: State, n: NodeId, steps: seq<Step>)
    requires Inv(s) && Possible(s, steps) && n < s.nextNode && (n in s.nodes ==> !s.nodes[n].init)
    ensures n in Run(s, steps).nodes <==> n in s.nodes && !Frees(s, steps, n)
    decreases |steps|
  {
    if steps != [] {
      NodeGoes(s, steps[0], n);
      StepKeeps(s, steps[0]);
      StaysExactly(Apply(s, steps[0]), n, steps[1..]);
    }
  }

  ghost predicate Leads(s: State, steps: seq<Step>, t: State) { Possible(s, steps) && Run(s, steps) == t }

  lemma {:induction false} LeadsOn(s: State, steps: seq<Step>, t: State, step: Step)
    requires Leads(s, steps, t) && Enabled(t, step)
    ensures Leads(s, steps + [step], Apply(t, step))
    decreases |steps|
  {
    var more := steps + [step];
    if steps == [] {
      assert more[0] == step && more[1..] == [];
    } else {
      LeadsOn(Apply(s, steps[0]), steps[1..], t, step);
      assert more[0] == steps[0] && more[1..] == steps[1..] + [step];
    }
  }

  /** Threads 1 and 2 look up path 9; 1 makes the node; 2 finds it; 1 reclaims it. */
  const RECLAIMED := [Step(1, Walk(9)), Step(1, Scan), Step(1, InitDone), Step(2, Walk(9)), Step(2, Scan),
                      Step(1, Reclaim(0)), Step(1, Unlist), Step(1, ClunkNode), Step(1, Finish)]

  function NodeAt(i: nat): Node {
    if i <= 2 then Node(9, 0, true, false, false, false, true, false)
    else if i <= 5 then Node(9, 0, false, false, false, false, true, true)
    else if i <= 6 then Node(9, 0, false, false, true, false, true, true)
    else if i <= 7 then Node(9, 0, false, false, true, false, false, true)
    else Node(9, 0, false, false, true, false, false, false)
  }

  function FirstAt(i: nat): Phase {
    if i == 1 then Walked(0, 9) else if i == 2 then Initing(0, 9, 0) else if i <= 5 then Idle
    else if i == 6 then Marked(0) else if i == 7 then Unlisted(0) else if i == 8 then Finishing(0) else Idle
  }

  function SecondAt(i: nat): Phase { if i == 4 then Walked(1, 9) else Found(1, 9, 0) }

  /** The state after the first i steps of RECLAIMED. */
  function Stage(i: nat): State {
    var phases := if i == 0 then map[] else if i <= 3 then map[1 := FirstAt(i)]
      else map[1 := FirstAt(i), 2 := SecondAt(i)];
    State(if 2 <= i <= 8 then map[0 := NodeAt(i)] else map[], phases, if i == 0 then 0 else if i <= 3 then 1 else 2,
          if i <= 1 then 0 else 1, if i <= 7 then {} else {0}, {}, false)
  }

  lemma StageHit(i: nat)
    ensures i == 1 ==> Hit(Stage(i), 9) == None
    ensures i == 4 ==> Hit(Stage(i), 9) == Some(0)
  {
    if i == 1 { forall n ensures !Listed(Stage(i), n, 9) {} }
    if i == 4 {
      assert Listed(Stage(i), 0, 9);
      forall n | Listed(Stage(i), n, 9) ensures n == 0 {}
    }
  }

  lemma StageStep(i: nat)
    requires i < 9
    ensures Enabled(Stage(i), RECLAIMED[i]) && Apply(Stage(i), RECLAIMED[i]) == Stage(i + 1)
  {
    StageHit(i);
  }

  /** A reachable state in which a thread deals with a node that has been freed. */
  lemma FoundAndGone() returns (steps: seq<Step>)
    ensures Leads(INIT, steps, Stage(9)) && PhaseOf(Stage(9), 2) == Found(1, 9, 0) && 0 !in Stage(9).nodes
  {
    steps := [];
    assert Stage(0) == INIT;
    for i := 0 to 9
      invariant Leads(INIT, steps, Stage(i))
    {
      StageStep(i);
      LeadsOn(INIT, steps, Stage(i), RECLAIMED[i]);
      steps := steps + [RECLAIMED[i]];
    }
  }
}
