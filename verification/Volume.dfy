/** The fid table of Mac9PVolume.swift: lookups and reclaims run as tasks whose lock sections and calls on
    the client are single steps, in any order. */
module Volume {
  import opened Options

  type Id = nat
  type Fid = nat

  const ROOT: Id := 2

  datatype FidEntry = FidEntry(fid: Fid, refCount: int)

  type Table = map<Id, FidEntry>

  /** Where a lookup, and the item that came of it, has got to. temp is the fid allocated for the walk. */
  datatype Phase =
    | Walking(temp: Fid)
    | Resolved(temp: Fid, id: Id)
    | Missing(temp: Fid, id: Id)
    | Sharing(temp: Fid, id: Id, fid: Fid)
    | Live(id: Id, fid: Fid)
    | Miscounted(temp: Fid, id: Id)
    | Clunking(fid: Fid)
    | Leaked(fid: Fid)

  /** held are the fids that have been allocated and not released; root is the one that is never released. */
  datatype State = State(table: Table, phases: map<nat, Phase>, held: set<Fid>, root: Fid)

  datatype Step =
    | Begin(n: nat, temp: Fid)
    | WalkFails(n: nat)
    | WalkEmpty(n: nat)
    | WalkDone(n: nat, id: Id)
    | Check(n: nat)
    | Insert(n: nat)
    | TempClunked(n: nat)
    | TempClunkFails(n: nat)
    | Reclaim(n: nat)
    | Clunked(n: nat)
    | ClunkFails(n: nat)

  // ----- the three lock sections -----

  /** An entry that is there is counted up. */
  function Share(table: Table, id: Id): (Table, Option<FidEntry>) {
    if id in table then
      var e := table[id].(refCount := table[id].refCount + 1);
      (table[id := e], Some(e))
    else (table, None)
  }

  function Enter(table: Table, id: Id, fid: Fid): Table { table[id := FidEntry(fid, 1)] }

  /** Counting down; the last one takes the entry out and has the fid freed. */
  function Drop(table: Table, id: Id): (Table, bool) {
    if id !in table then (table, false)
    else
      var e := table[id].(refCount := table[id].refCount - 1);
      if e.refCount <= 0 then (table - {id}, true) else (table[id := e], false)
  }

  class FidTable {
    var fidTable: Table

    method ShareExisting(id: Id) returns (existing: Option<FidEntry>)
      modifies this
      ensures (fidTable, existing) == Share(old(fidTable), id)
    {
      if id in fidTable {
        var e := fidTable[id];
        e := e.(refCount := e.refCount + 1);
        fidTable := fidTable[id := e];
        return Some(e);
      }
      return None;
    }

    method EnterNew(id: Id, fid: Fid)
      modifies this
      ensures fidTable == Enter(old(fidTable), id, fid)
    {
      fidTable := fidTable[id := FidEntry(fid, 1)];
    }

    method ReclaimItem(id: Id) returns (shouldFree: bool)
      modifies this
      ensures (fidTable, shouldFree) == Drop(old(fidTable), id)
    {
      shouldFree := false;
      if id !in fidTable { return; }
      var entry := fidTable[id];
      entry := entry.(refCount := entry.refCount - 1);
      if entry.refCount <= 0 {
        fidTable := fidTable - {id};
        shouldFree := true;
      } else {
        fidTable := fidTable[id := entry];
      }
    }
  }

  // ----- steps -----

  ghost predicate Enabled(s: State, step: Step) {
    match step
    case Begin(n, temp) => n !in s.phases && temp !in s.held
    case WalkFails(n) => n in s.phases && s.phases[n].Walking?
    case WalkEmpty(n) => n in s.phases && s.phases[n].Walking?
    case WalkDone(n, id) => n in s.phases && s.phases[n].Walking? && id != ROOT
    case Check(n) => n in s.phases && s.phases[n].Resolved?
    case Insert(n) => n in s.phases && s.phases[n].Missing?
    case TempClunked(n) => n in s.phases && s.phases[n].Sharing?
    case TempClunkFails(n) => n in s.phases && s.phases[n].Sharing?
    case Reclaim(n) => n in s.phases && s.phases[n].Live?
    case Clunked(n) => n in s.phases && s.phases[n].Clunking?
    case ClunkFails(n) => n in s.phases && s.phases[n].Clunking?
  }

  /** releaseFid keeps the root fid. */
  function Released(s: State, n: nat, fid: Fid): State {
    if fid == s.root then s.(phases := s.phases[n := Leaked(fid)])
    else s.(phases := s.phases - {n}, held := s.held - {fid})
  }

  ghost function Apply(s: State, step: Step): State
    requires Enabled(s, step)
  {
    match step
    case Begin(n, temp) => s.(phases := s.phases[n := Walking(temp)], held := s.held + {temp})
    case WalkFails(n) => s.(phases := s.phases[n := Leaked(s.phases[n].temp)])
    case WalkEmpty(n) => Released(s, n, s.phases[n].temp)
    case WalkDone(n, id) => s.(phases := s.phases[n := Resolved(s.phases[n].temp, id)])
    case Check(n) =>
      var p := s.phases[n];
      var (table, existing) := Share(s.table, p.id);
      var next := if existing.Some? then Sharing(p.temp, p.id, existing.value.fid) else Missing(p.temp, p.id);
      s.(table := table, phases := s.phases[n := next])
    case Insert(n) =>
      var p := s.phases[n];
      s.(table := Enter(s.table, p.id, p.temp), phases := s.phases[n := Live(p.id, p.temp)])
    case TempClunked(n) =>
      var p := s.phases[n];
      s.(phases := s.phases[n := Live(p.id, p.fid)], held := s.held - {p.temp})
    case TempClunkFails(n) => s.(phases := s.phases[n := Miscounted(s.phases[n].temp, s.phases[n].id)])
    case Reclaim(n) =>
      var p := s.phases[n];
      var (table, shouldFree) := Drop(s.table, p.id);
      s.(table := table, phases := if shouldFree then s.phases[n := Clunking(p.fid)] else s.phases - {n})
    case Clunked(n) => Released(s, n, s.phases[n].fid)
    case ClunkFails(n) => s.(phases := s.phases[n := Leaked(s.phases[n].fid)])
  }

  // ----- who owns a fid, and who is counted for an entry -----

  function Owns(p: Phase): Option<Fid> {
    match p
    case Live(_, _) => None
    case Clunking(fid) => Some(fid)
    case Leaked(fid) => Some(fid)
    case _ => Some(p.temp)
  }

  /** Holds the fid of the entry for id. */
  predicate Uses(p: Phase, id: Id) { (p.Sharing? || p.Live?) && p.id == id }

  /** Was counted for id and not uncounted: whoever uses the entry, or was to and failed. */
  predicate Counts(p: Phase, id: Id) { Uses(p, id) || (p.Miscounted? && p.id == id) }

  function Users(phases: map<nat, Phase>, id: Id): set<nat> { set n | n in phases && Uses(phases[n], id) }
  function Counted(phases: map<nat, Phase>, id: Id): set<nat> { set n | n in phases && Counts(phases[n], id) }

  predicate LiveOn(p: Phase, id: Id) { p.Live? && p.id == id }

  /** The items of id that FSKit holds. */
  function Items(phases: map<nat, Phase>, id: Id): set<nat> { set n | n in phases && LiveOn(phases[n], id) }

  /** No two owners for one fid, and every owned fid held; the entries of the table own theirs. */
  ghost predicate Exclusive(s: State) {
    && (forall m, n :: m in s.phases && n in s.phases && m != n && Owns(s.phases[m]).Some? ==>
      Owns(s.phases[m]) != Owns(s.phases[n]))
    && (forall n, id :: n in s.phases && id in s.table ==> Owns(s.phases[n]) != Some(s.table[id].fid))
    && (forall i, j :: i in s.table && j in s.table && i != j ==> s.table[i].fid != s.table[j].fid)
    && (forall n :: n in s.phases && Owns(s.phases[n]).Some? ==> Owns(s.phases[n]).value in s.held)
    && (forall id :: id in s.table ==> s.table[id].fid in s.held)
  }

  /** Whoever uses an entry finds it in the table, with the same fid. */
  ghost predicate Backed(s: State) {
    forall n :: n in s.phases && (s.phases[n].Sharing? || s.phases[n].Live?) ==>
      s.phases[n].id in s.table && s.table[s.phases[n].id].fid == s.phases[n].fid
  }

  /** All users are counted, and nobody who was not. */
  ghost predicate InBounds(s: State, id: Id)
    requires id in s.table
  {
    1 <= s.table[id].refCount && |Users(s.phases, id)| <= s.table[id].refCount <= |Counted(s.phases, id)|
  }

  ghost predicate Inv(s: State) { Exclusive(s) && Backed(s) && forall id :: id in s.table ==> InBounds(s, id) }

  /** Everybody who was counted still is, those whose lookup failed behind it too. */
  ghost predicate AllCounted(s: State) {
    && (forall n :: n in s.phases && s.phases[n].Miscounted? ==> s.phases[n].id in s.table)
    && (forall id :: id in s.table ==> s.table[id].refCount == |Counted(s.phases, id)|)
  }

  // ----- how the users and the counted move -----

  function One(c: bool): nat { if c then 1 else 0 }

  predicate UsesNow(phases: map<nat, Phase>, n: nat, id: Id) { n in phases && Uses(phases[n], id) }
  predicate CountsNow(phases: map<nat, Phase>, n: nat, id: Id) { n in phases && Counts(phases[n], id) }

  lemma SetMoves(a: set<nat>, b: set<nat>, n: nat)
    requires forall m :: m != n ==> (m in a <==> m in b)
    ensures |b| + One(n in a) == |a| + One(n in b)
  {
    assert a - {n} == b - {n};
    assert |a| == |a - {n}| + One(n in a) by { if n in a { assert a == a - {n} + {n}; } else { assert a == a - {n}; } }
    assert |b| == |b - {n}| + One(n in b) by { if n in b { assert b == b - {n} + {n}; } else { assert b == b - {n}; } }
  }

  /** Only task n changes. */
  ghost predicate Elsewhere(phases: map<nat, Phase>, phases': map<nat, Phase>, n: nat) {
    forall m :: m != n ==> (m in phases <==> m in phases') && (m in phases ==> phases'[m] == phases[m])
  }

  /** Then only n can be gained or lost. */
  lemma SizesMove(phases: map<nat, Phase>, phases': map<nat, Phase>, n: nat, id: Id)
    requires Elsewhere(phases, phases', n)
    ensures |Users(phases', id)| + One(UsesNow(phases, n, id)) == |Users(phases, id)| + One(UsesNow(phases', n, id))
    ensures |Counted(phases', id)| + One(CountsNow(phases, n, id)) ==
      |Counted(phases, id)| + One(CountsNow(phases', n, id))
  {
    SetMoves(Users(phases, id), Users(phases', id), n);
    SetMoves(Counted(phases, id), Counted(phases', id), n);
  }

  /** The count moves with the users and the counted. */
  predicate Follows(s: State, t: State, n: nat, id: Id)
    requires id in s.table && id in t.table
  {
    && t.table[id].refCount + One(UsesNow(s.phases, n, id)) >= s.table[id].refCount + One(UsesNow(t.phases, n, id))
    && t.table[id].refCount + One(CountsNow(s.phases, n, id)) == s.table[id].refCount + One(CountsNow(t.phases, n, id))
  }

  lemma BoundsFollow(s: State, t: State, n: nat, id: Id)
    requires id in s.table && id in t.table && InBounds(s, id) && Follows(s, t, n, id) && t.table[id].refCount >= 1
    requires Elsewhere(s.phases, t.phases, n)
    ensures InBounds(t, id)
    ensures s.table[id].refCount == |Counted(s.phases, id)| ==> t.table[id].refCount == |Counted(t.phases, id)|
  {
    SizesMove(s.phases, t.phases, n, id);
  }

  // ----- every step keeps the table in order, unless an insertion does harm -----

  ghost predicate Inserts(s: State, step: Step) { step.Insert? && step.n in s.phases && s.phases[step.n].Missing? }

  /** No entry for the id has appeared since the lookup looked for one. */
  ghost predicate Uncrossed(s: State, step: Step) { Inserts(s, step) ==> s.phases[step.n].id !in s.table }

  /** Nobody uses the entry that is written over, if there is one. */
  ghost predicate Harmless(s: State, step: Step) { Inserts(s, step) ==> Users(s.phases, s.phases[step.n].id) == {} }

  lemma UncrossedHarmless(s: State, step: Step)
    requires Backed(s) && Uncrossed(s, step)
    ensures Harmless(s, step)
  {}

  /** A step that changes one task's phase, and no fid. */
  lemma PhaseFids(s: State, n: nat, p: Phase)
    requires Exclusive(s) && Backed(s) && n in s.phases && Owns(p) == Owns(s.phases[n]) && !p.Live? && !p.Sharing?
    ensures var t := s.(phases := s.phases[n := p]); Exclusive(t) && Backed(t)
  {}

  lemma BeginFids(s: State, n: nat, temp: Fid)
    requires Exclusive(s) && Backed(s) && Enabled(s, Begin(n, temp))
    ensures Exclusive(Apply(s, Begin(n, temp))) && Backed(Apply(s, Begin(n, temp)))
  {}

  lemma ReleasedFids(s: State, n: nat, fid: Fid)
    requires Exclusive(s) && Backed(s) && n in s.phases && Owns(s.phases[n]) == Some(fid) && !s.phases[n].Sharing?
    ensures Exclusive(Released(s, n, fid)) && Backed(Released(s, n, fid))
  {}

  lemma SharedFids(s: State, n: nat)
    requires Exclusive(s) && Backed(s) && Enabled(s, Check(n)) && s.phases[n].id in s.table
    ensures Exclusive(Apply(s, Check(n))) && Backed(Apply(s, Check(n)))
  {}

  lemma InsertFids(s: State, n: nat)
    requires Exclusive(s) && Backed(s) && Enabled(s, Insert(n)) && Harmless(s, Insert(n))
    ensures Exclusive(Apply(s, Insert(n))) && Backed(Apply(s, Insert(n)))
  {
    NobodyUses(s.phases, s.phases[n].id);
  }

  lemma NobodyUses(phases: map<nat, Phase>, id: Id)
    requires Users(phases, id) == {}
    ensures forall m :: m in phases ==> !Uses(phases[m], id)
  {
    assert forall m :: m in phases && Uses(phases[m], id) ==> m in Users(phases, id);
  }

  lemma TempClunkedFids(s: State, n: nat)
    requires Exclusive(s) && Backed(s) && Enabled(s, TempClunked(n))
    ensures Exclusive(Apply(s, TempClunked(n))) && Backed(Apply(s, TempClunked(n)))
  {}

  /** The last item: its fid passes from the table to the clunk. */
  lemma LastFids(s: State, n: nat, t: State)
    requires Inv(s) && Enabled(s, Reclaim(n)) && s.table[s.phases[n].id].refCount == 1 && t == Apply(s, Reclaim(n))
    ensures Exclusive(t) && Backed(t)
  {
    var id := s.phases[n].id;
    assert InBounds(s, id);
    SizesMove(s.phases, t.phases, n, id);
    NobodyUses(t.phases, id);
    LastExclusive(s, n, t);
    LastBacked(s, n, t);
  }

  lemma LastBacked(s: State, n: nat, t: State)
    requires Backed(s) && n in s.phases && s.phases[n].Live?
    requires t == s.(table := s.table - {s.phases[n].id}, phases := s.phases[n := Clunking(s.phases[n].fid)])
    requires forall m :: m in t.phases ==> !Uses(t.phases[m], s.phases[n].id)
    ensures Backed(t)
  {
    forall m | m in t.phases && (t.phases[m].Sharing? || t.phases[m].Live?) ensures t.phases[m].id in t.table {
      assert Uses(t.phases[m], t.phases[m].id);
    }
  }

  lemma LastExclusive(s: State, n: nat, t: State)
    requires Exclusive(s) && Backed(s) && n in s.phases && s.phases[n].Live?
    requires t == s.(table := s.table - {s.phases[n].id}, phases := s.phases[n := Clunking(s.phases[n].fid)])
    ensures Exclusive(t)
  {
    forall m | m in t.phases
      ensures Owns(t.phases[m]) == if m == n then Some(s.phases[n].fid) else Owns(s.phases[m])
    {}
  }

  lemma OtherFids(s: State, n: nat, t: State)
    requires Exclusive(s) && Backed(s) && Enabled(s, Reclaim(n)) && s.table[s.phases[n].id].refCount > 1
    requires t == Apply(s, Reclaim(n))
    ensures Exclusive(t) && Backed(t)
  {
    assert t.phases == s.phases - {n} && t.table.Keys == s.table.Keys;
    assert forall id :: id in s.table ==> t.table[id].fid == s.table[id].fid;
  }

  lemma FidsKept(s: State, step: Step)
    requires Inv(s) && Enabled(s, step) && Harmless(s, step)
    ensures Exclusive(Apply(s, step)) && Backed(Apply(s, step))
  {
    match step
    case Begin(n, temp) => BeginFids(s, n, temp);
    case WalkFails(n) => PhaseFids(s, n, Leaked(s.phases[n].temp));
    case WalkEmpty(n) => ReleasedFids(s, n, s.phases[n].temp);
    case WalkDone(n, id) => PhaseFids(s, n, Resolved(s.phases[n].temp, id));
    case Check(n) =>
      if s.phases[n].id in s.table {
        SharedFids(s, n);
      } else {
        PhaseFids(s, n, Missing(s.phases[n].temp, s.phases[n].id));
      }
    case Insert(n) => InsertFids(s, n);
    case TempClunked(n) => TempClunkedFids(s, n);
    case TempClunkFails(n) => PhaseFids(s, n, Miscounted(s.phases[n].temp, s.phases[n].id));
    case Reclaim(n) =>
      if s.table[s.phases[n].id].refCount == 1 {
        LastFids(s, n, Apply(s, step));
      } else {
        assert InBounds(s, s.phases[n].id);
        OtherFids(s, n, Apply(s, step));
      }
    case Clunked(n) => ReleasedFids(s, n, s.phases[n].fid);
    case ClunkFails(n) => PhaseFids(s, n, Leaked(s.phases[n].fid));
  }

  lemma OthersStay(s: State, step: Step)
    requires Enabled(s, step)
    ensures Elsewhere(s.phases, Apply(s, step).phases, step.n)
  {}

  lemma UsersCounted(phases: map<nat, Phase>, id: Id)
    ensures |Users(phases, id)| <= |Counted(phases, id)|
  {
    SubsetSize(Users(phases, id), Counted(phases, id));
  }

  lemma SubsetSize(a: set<nat>, b: set<nat>)
    requires a <= b
    ensures |a| <= |b|
  {
    assert b == a + (b - a);
  }

  /** An insertion starts the count anew. */
  lemma InsertBounds(s: State, n: nat)
    requires Inv(s) && Enabled(s, Insert(n)) && Harmless(s, Insert(n))
    ensures InBounds(Apply(s, Insert(n)), s.phases[n].id)
    ensures AllCounted(s) && Uncrossed(s, Insert(n)) ==> |Counted(Apply(s, Insert(n)).phases, s.phases[n].id)| == 1
  {
    var t, id := Apply(s, Insert(n)), s.phases[n].id;
    SizesMove(s.phases, t.phases, n, id);
    UsersCounted(t.phases, id);
    if AllCounted(s) && Uncrossed(s, Insert(n)) { assert Counted(s.phases, id) == {}; }
  }

  lemma CountFollows(s: State, step: Step, id: Id)
    requires Enabled(s, step) && id in s.table && id in Apply(s, step).table && s.table[id].refCount >= 1
    requires step.Insert? ==> id != s.phases[step.n].id
    ensures Follows(s, Apply(s, step), step.n, id) && Apply(s, step).table[id].refCount >= 1
  {}

  lemma BoundsKept(s: State, step: Step, id: Id)
    requires Inv(s) && Enabled(s, step) && Harmless(s, step) && id in Apply(s, step).table
    ensures InBounds(Apply(s, step), id)
    ensures AllCounted(s) && Uncrossed(s, step) ==>
      Apply(s, step).table[id].refCount == |Counted(Apply(s, step).phases, id)|
  {
    if step.Insert? && id == s.phases[step.n].id {
      InsertBounds(s, step.n);
    } else {
      OthersStay(s, step);
      assert InBounds(s, id);
      CountFollows(s, step, id);
      BoundsFollow(s, Apply(s, step), step.n, id);
    }
  }

  lemma StepKeeps(s: State, step: Step)
    requires Inv(s) && Enabled(s, step) && Harmless(s, step)
    ensures Inv(Apply(s, step))
  {
    FidsKept(s, step);
    forall id | id in Apply(s, step).table ensures InBounds(Apply(s, step), id) { BoundsKept(s, step, id); }
  }

  /** Uncrossed steps moreover lose no count. */
  lemma CountsKept(s: State, step: Step)
    requires Inv(s) && AllCounted(s) && Enabled(s, step) && Uncrossed(s, step)
    ensures AllCounted(Apply(s, step))
  {
    var t := Apply(s, step);
    UncrossedHarmless(s, step);
    forall id | id in t.table ensures t.table[id].refCount == |Counted(t.phases, id)| { BoundsKept(s, step, id); }
    forall n | n in t.phases && t.phases[n].Miscounted? ensures t.phases[n].id in t.table {
      MiscountedStays(s, step, n);
    }
  }

  lemma FailedBefore(s: State, step: Step, n: nat)
    requires Enabled(s, step) && n in Apply(s, step).phases && Apply(s, step).phases[n].Miscounted?
    ensures n in s.phases && (s.phases[n].Miscounted? || s.phases[n].Sharing?)
    ensures s.phases[n].id == Apply(s, step).phases[n].id
  {}

  lemma EntryStays(s: State, step: Step, id: Id)
    requires Enabled(s, step) && id in s.table
    requires step.Reclaim? && s.phases[step.n].id == id ==> s.table[id].refCount >= 2
    ensures id in Apply(s, step).table
  {}

  /** While a failed lookup is counted, the count does not come down to nothing. */
  lemma MiscountedStays(s: State, step: Step, n: nat)
    requires Inv(s) && AllCounted(s) && Enabled(s, step)
    requires n in Apply(s, step).phases && Apply(s, step).phases[n].Miscounted?
    ensures Apply(s, step).phases[n].id in Apply(s, step).table
  {
    FailedBefore(s, step, n);
    var id := s.phases[n].id;
    assert id in s.table;
    if step.Reclaim? && s.phases[step.n].id == id { TwoCounted(s, n, step.n, id); }
    EntryStays(s, step, id);
  }

  lemma TwoCounted(s: State, m: nat, n: nat, id: Id)
    requires AllCounted(s) && id in s.table && m != n && CountsNow(s.phases, m, id) && CountsNow(s.phases, n, id)
    ensures s.table[id].refCount >= 2
  {
    SubsetSize({m, n}, Counted(s.phases, id));
  }

  // ----- whole runs -----

  function Mounted(root: Fid): State {
    State(map[ROOT := FidEntry(root, 1)], map[0 := Live(ROOT, root)], {root}, root)
  }

  lemma MountedInv(root: Fid)
    ensures Inv(Mounted(root)) && AllCounted(Mounted(root))
  {
    var s := Mounted(root);
    assert Users(s.phases, ROOT) == {0} && Counted(s.phases, ROOT) == {0};
  }

  ghost function Run(s: State, steps: seq<Step>): State
    requires AllEnabled(s, steps)
    decreases |steps|
  {
    if steps == [] then s else Run(Apply(s, steps[0]), steps[1..])
  }

  ghost predicate AllEnabled(s: State, steps: seq<Step>)
    decreases |steps|
  {
    steps == [] || (Enabled(s, steps[0]) && AllEnabled(Apply(s, steps[0]), steps[1..]))
  }

  ghost predicate AllUncrossed(s: State, steps: seq<Step>)
    requires AllEnabled(s, steps)
    decreases |steps|
  {
    steps == [] || (Uncrossed(s, steps[0]) && AllUncrossed(Apply(s, steps[0]), steps[1..]))
  }

  ghost predicate AllHarmless(s: State, steps: seq<Step>)
    requires AllEnabled(s, steps)
    decreases |steps|
  {
    steps == [] || (Harmless(s, steps[0]) && AllHarmless(Apply(s, steps[0]), steps[1..]))
  }

  lemma {:induction false} RunKeeps(s: State, steps: seq<Step>)
    requires Inv(s) && AllEnabled(s, steps) && AllHarmless(s, steps)
    ensures Inv(Run(s, steps))
    decreases |steps|
  {
    if steps != [] {
      StepKeeps(s, steps[0]);
      RunKeeps(Apply(s, steps[0]), steps[1..]);
    }
  }

  /** Runs in which no two first lookups of one id cross are harmless, and lose no count. */
  lemma {:induction false} UncrossedKeeps(s: State, steps: seq<Step>)
    requires Inv(s) && AllCounted(s) && AllEnabled(s, steps) && AllUncrossed(s, steps)
    ensures AllHarmless(s, steps) && AllCounted(Run(s, steps))
    decreases |steps|
  {
    if steps != [] {
      UncrossedHarmless(s, steps[0]);
      StepKeeps(s, steps[0]);
      CountsKept(s, steps[0]);
      UncrossedKeeps(Apply(s, steps[0]), steps[1..]);
    }
  }

  /** What FSKit sees: items of one id share a fid, items of different ids do not, a fid of a live item is
      held, nobody is about to clunk it, and the count is never below the number of items. */
  ghost predicate ItemsSound(s: State) {
    && (forall m, n :: m in s.phases && n in s.phases && s.phases[m].Live? && s.phases[n].Live? ==>
        (s.phases[m].id == s.phases[n].id <==> s.phases[m].fid == s.phases[n].fid))
    && (forall n :: n in s.phases && s.phases[n].Live? ==> s.phases[n].fid in s.held)
    && (forall m, n :: m in s.phases && n in s.phases && s.phases[n].Live? ==>
      Owns(s.phases[m]) != Some(s.phases[n].fid))
    && (forall id :: id in s.table ==> |Items(s.phases, id)| <= s.table[id].refCount)
  }

  /** No clunk of a temporary fid has failed, and no such clunk is under way. */
  ghost predicate Settled(s: State, id: Id) {
    forall n :: n in s.phases && Counts(s.phases[n], id) ==> s.phases[n].Live?
  }

  lemma InvSound(s: State)
    requires Inv(s)
    ensures ItemsSound(s)
    ensures forall id :: id in s.table && Settled(s, id) ==> s.table[id].refCount == |Items(s.phases, id)|
  {
    forall id | id in s.table ensures |Items(s.phases, id)| <= s.table[id].refCount {
      assert InBounds(s, id);
      SubsetSize(Items(s.phases, id), Users(s.phases, id));
    }
    forall id | id in s.table && Settled(s, id) ensures s.table[id].refCount == |Items(s.phases, id)| {
      assert InBounds(s, id);
      assert Items(s.phases, id) == Users(s.phases, id) == Counted(s.phases, id);
    }
  }

  /** Between mount and unmount, over every run in which no insertion writes over an entry in use. */
  lemma TableSound(root: Fid, steps: seq<Step>)
    requires AllEnabled(Mounted(root), steps) && AllHarmless(Mounted(root), steps)
    ensures ItemsSound(Run(Mounted(root), steps))
    ensures var s := Run(Mounted(root), steps);
      forall id :: id in s.table && Settled(s, id) ==> s.table[id].refCount == |Items(s.phases, id)|
  {
    MountedInv(root);
    RunKeeps(Mounted(root), steps);
    InvSound(Run(Mounted(root), steps));
  }

  /** A fid goes back to the pool only while it is held, no entry has it and nobody else owns it: never
      twice, and never while an item uses it. */
  lemma ReleasedOnce(s: State, step: Step, fid: Fid)
    requires Inv(s) && Enabled(s, step) && Harmless(s, step)
    requires fid in s.held && fid !in Apply(s, step).held
    ensures forall id :: id in s.table ==> s.table[id].fid != fid
    ensures forall n :: n in s.phases && s.phases[n].Live? ==> s.phases[n].fid != fid
    ensures forall n :: n in Apply(s, step).phases ==> Owns(Apply(s, step).phases[n]) != Some(fid)
  {
    StepKeeps(s, step);
  }

  /** A lookup whose check finds an entry takes over its fid and is counted there; one that enters its own fid has
      found none, so only what happens in between can make its insertion cross another. */
  lemma CheckFinds(s: State, n: nat)
    requires Enabled(s, Check(n))
    ensures var id, temp, t := s.phases[n].id, s.phases[n].temp, Apply(s, Check(n));
      if id in s.table then
        && t.phases[n] == Sharing(temp, id, s.table[id].fid) && t.table[id].refCount == s.table[id].refCount + 1
        && t.table[id].fid == s.table[id].fid && t.table - {id} == s.table - {id}
      else t.phases[n] == Missing(temp, id) && t.table == s.table && Uncrossed(t, Insert(n))
  {}

  /** A call that fails gives no fid back and leaves the table, even where a count has been taken. */
  lemma FailureKeeps(s: State, step: Step)
    requires Enabled(s, step) && (step.WalkFails? || step.TempClunkFails? || step.ClunkFails?)
    ensures Apply(s, step).held == s.held && Apply(s, step).table == s.table
    ensures step.n in Apply(s, step).phases && Owns(Apply(s, step).phases[step.n]) == Owns(s.phases[step.n])
  {}

  // ----- no fid is lost sight of -----

  ghost predicate EntryHas(s: State, fid: Fid) { exists id :: id in s.table && s.table[id].fid == fid }
  ghost predicate TaskHas(s: State, fid: Fid) { exists n :: n in s.phases && Owns(s.phases[n]) == Some(fid) }

  /** Whoever holds the fid: the root for good, an entry, or a task that has yet to give it back. */
  ghost predicate Kept(s: State, fid: Fid) { fid == s.root || EntryHas(s, fid) || TaskHas(s, fid) }

  ghost predicate NoneAdrift(s: State) { forall f :: f in s.held ==> Kept(s, f) }

  lemma EntryPassesOn(s: State, step: Step, id: Id)
    requires Inv(s) && Enabled(s, step) && Uncrossed(s, step) && id in s.table
    ensures Kept(Apply(s, step), s.table[id].fid)
  {
    var t, f := Apply(s, step), s.table[id].fid;
    if id in t.table {
      assert t.table[id].fid == f;
    } else {
      assert Owns(t.phases[step.n]) == Some(f);
    }
  }

  lemma TaskPassesOn(s: State, step: Step, n: nat)
    requires Inv(s) && Enabled(s, step) && n in s.phases && Owns(s.phases[n]).Some?
    ensures var f := Owns(s.phases[n]).value; f in Apply(s, step).held ==> Kept(Apply(s, step), f)
  {
    var t, f := Apply(s, step), Owns(s.phases[n]).value;
    if n != step.n {
      OthersStay(s, step);
      assert Owns(t.phases[n]) == Some(f);
    } else if step.Insert? {
      assert t.table[s.phases[n].id].fid == f;
    } else if f in t.held {
      assert n in t.phases && Owns(t.phases[n]) == Some(f);
    }
  }

  /** Every step but a crossing insertion hands each fid on, or gives it back. */
  lemma HeldPassesOn(s: State, step: Step)
    requires Inv(s) && NoneAdrift(s) && Enabled(s, step) && Uncrossed(s, step)
    ensures NoneAdrift(Apply(s, step))
  {
    var t := Apply(s, step);
    forall f | f in t.held ensures Kept(t, f) {
      if step.Begin? && f == step.temp {
        assert Owns(t.phases[step.n]) == Some(f);
      } else if EntryHas(s, f) {
        var id :| id in s.table && s.table[id].fid == f;
        EntryPassesOn(s, step, id);
      } else if TaskHas(s, f) {
        var n :| n in s.phases && Owns(s.phases[n]) == Some(f);
        TaskPassesOn(s, step, n);
      }
    }
  }

  /** A crossing one loses the fid of the entry it writes over, exactly. */
  lemma AdriftExactly(s: State, n: nat)
    requires Inv(s) && NoneAdrift(s) && Enabled(s, Insert(n))
    ensures var id := s.phases[n].id;
      NoneAdrift(Apply(s, Insert(n))) <==> id in s.table ==> s.table[id].fid == s.root
  {
    var id, t := s.phases[n].id, Apply(s, Insert(n));
    if id !in s.table {
      HeldPassesOn(s, Insert(n));
    } else if s.table[id].fid == s.root {
      forall f | f in t.held ensures Kept(t, f) { KeptBut(s, n, f); }
    } else {
      var f := s.table[id].fid;
      OverwrittenAdrift(s, n, f);
      assert f in t.held;
    }
  }

  lemma KeptBut(s: State, n: nat, f: Fid)
    requires Inv(s) && NoneAdrift(s) && Enabled(s, Insert(n)) && f in s.held
    requires s.phases[n].id in s.table && s.table[s.phases[n].id].fid == s.root
    ensures Kept(Apply(s, Insert(n)), f)
  {
    var id, t := s.phases[n].id, Apply(s, Insert(n));
    if EntryHas(s, f) && f != s.root {
      var i :| i in s.table && s.table[i].fid == f;
      assert i != id && t.table[i].fid == f;
    } else if TaskHas(s, f) {
      var m :| m in s.phases && Owns(s.phases[m]) == Some(f);
      TaskPassesOn(s, Insert(n), m);
    }
  }

  lemma OverwrittenAdrift(s: State, n: nat, f: Fid)
    requires Inv(s) && Enabled(s, Insert(n)) && s.phases[n].id in s.table && s.table[s.phases[n].id].fid == f
    requires f != s.root
    ensures !Kept(Apply(s, Insert(n)), f)
  {
    var id, t := s.phases[n].id, Apply(s, Insert(n));
    forall i | i in t.table ensures t.table[i].fid != f {
      if i == id { assert Owns(s.phases[n]) != Some(f); } else { assert t.table[i] == s.table[i]; }
    }
    forall m | m in t.phases ensures Owns(t.phases[m]) != Some(f) {
      if m != n { assert Owns(s.phases[m]) != Some(s.table[id].fid); }
    }
  }

  lemma {:induction false} HeldKept(s: State, steps: seq<Step>)
    requires Inv(s) && NoneAdrift(s) && AllEnabled(s, steps) && AllUncrossed(s, steps)
    ensures NoneAdrift(Run(s, steps))
    decreases |steps|
  {
    if steps != [] {
      HeldPassesOn(s, steps[0]);
      UncrossedHarmless(s, steps[0]);
      StepKeeps(s, steps[0]);
      HeldKept(Apply(s, steps[0]), steps[1..]);
    }
  }

  /** What leaves a task with a fid it will not give back: a call to the server has failed. */
  predicate Fails(step: Step) { step.WalkFails? || step.TempClunkFails? || step.ClunkFails? }

  predicate Lost(s: State, p: Phase) { p.Miscounted? || (p.Leaked? && p.fid != s.root) }

  ghost predicate NoneLost(s: State) { forall n :: n in s.phases ==> !Lost(s, s.phases[n]) }

  lemma {:induction false} NoneLostKept(s: State, steps: seq<Step>)
    requires NoneLost(s) && AllEnabled(s, steps) && forall k :: 0 <= k < |steps| ==> !Fails(steps[k])
    ensures NoneLost(Run(s, steps)) && Run(s, steps).root == s.root
    decreases |steps|
  {
    if steps != [] {
      LostByFailure(s, steps[0]);
      NoneLostKept(Apply(s, steps[0]), steps[1..]);
    }
  }

  lemma LostByFailure(s: State, step: Step)
    requires NoneLost(s) && Enabled(s, step) && !Fails(step)
    ensures NoneLost(Apply(s, step)) && Apply(s, step).root == s.root
  {
    OthersStay(s, step);
  }

  /** No lookup and no reclaim is under way. */
  ghost predicate Quiet(s: State) { forall n :: n in s.phases ==> s.phases[n].Live? || s.phases[n].Leaked? }

  /** From mount on, where no call fails and no first lookups cross: once all is quiet, the fids held are the root's
      and those of entries with items. */
  lemma NothingLeaks(root: Fid, steps: seq<Step>, fid: Fid)
    requires AllEnabled(Mounted(root), steps) && AllUncrossed(Mounted(root), steps)
    requires forall k :: 0 <= k < |steps| ==> !Fails(steps[k])
    requires Quiet(Run(Mounted(root), steps)) && fid in Run(Mounted(root), steps).held && fid != root
    ensures var s := Run(Mounted(root), steps);
      exists id :: id in s.table && s.table[id].fid == fid && Items(s.phases, id) != {}
  {
    var m, s := Mounted(root), Run(Mounted(root), steps);
    MountedInv(root);
    assert EntryHas(m, root) by { assert m.table[ROOT].fid == root; }
    HeldKept(m, steps);
    NoneLostKept(m, steps);
    UncrossedKeeps(m, steps);
    RunKeeps(m, steps);
    assert Kept(s, fid);
    QuietTasks(s, fid);
    var id :| id in s.table && s.table[id].fid == fid;
    QuietEntry(s, id);
  }

  lemma QuietTasks(s: State, fid: Fid)
    requires NoneLost(s) && Quiet(s) && fid != s.root
    ensures !TaskHas(s, fid)
  {
    forall n | n in s.phases ensures Owns(s.phases[n]) != Some(fid) { assert !Lost(s, s.phases[n]); }
  }

  lemma QuietEntry(s: State, id: Id)
    requires Inv(s) && NoneLost(s) && Quiet(s) && id in s.table
    ensures Items(s.phases, id) != {}
  {
    assert InBounds(s, id);
    assert Counted(s.phases, id) == Items(s.phases, id);
  }

  // ----- which insertions do harm -----

  /** The items are sound, and stay so in every run whose further insertions write over no entry in use. */
  ghost predicate SoundForGood(s: State) {
    forall steps :: AllEnabled(s, steps) && AllHarmless(s, steps) ==> ItemsSound(Run(s, steps))
  }

  lemma InvSoundForGood(s: State)
    requires Inv(s)
    ensures SoundForGood(s)
  {
    forall steps | AllEnabled(s, steps) && AllHarmless(s, steps) ensures ItemsSound(Run(s, steps)) {
      RunKeeps(s, steps);
      InvSound(Run(s, steps));
    }
  }

  /** Where there is an item already, the new one has another fid than it. */
  lemma ItemInsert(s: State, n: nat, m: nat)
    requires Inv(s) && Enabled(s, Insert(n)) && m in s.phases && LiveOn(s.phases[m], s.phases[n].id)
    ensures !ItemsSound(Apply(s, Insert(n)))
  {
    var t := Apply(s, Insert(n));
    assert t.phases[n].Live? && t.phases[m].Live? && t.phases[m].id == t.phases[n].id;
    assert Owns(s.phases[n]) != Some(s.table[s.phases[n].id].fid);
  }

  /** Where a lookup shares the entry, it becomes such an item as soon as its temporary fid is clunked. */
  lemma ShareInsert(s: State, n: nat, m: nat)
    requires Inv(s) && Enabled(s, Insert(n))
    requires m in s.phases && s.phases[m].Sharing? && s.phases[m].id == s.phases[n].id
    ensures !SoundForGood(Apply(s, Insert(n)))
  {
    var t, steps := Apply(s, Insert(n)), [TempClunked(m)];
    var u := Apply(t, TempClunked(m));
    assert steps[1..] == [] && AllEnabled(u, []) && Run(u, []) == u;
    assert AllEnabled(t, steps) && AllHarmless(t, steps) && Run(t, steps) == u;
    assert u.phases[n].Live? && u.phases[m].Live? && u.phases[m].id == u.phases[n].id;
    assert Owns(s.phases[n]) != Some(s.table[s.phases[n].id].fid);
  }

  /** An insertion leaves the items sound for good if and only if nobody uses the entry it writes over: no item
      of the id, and no lookup that shares it. */
  lemma InsertExactly(s: State, n: nat)
    requires Inv(s) && Enabled(s, Insert(n))
    ensures SoundForGood(Apply(s, Insert(n))) <==> Users(s.phases, s.phases[n].id) == {}
  {
    var id, t := s.phases[n].id, Apply(s, Insert(n));
    if Users(s.phases, id) == {} {
      StepKeeps(s, Insert(n));
      InvSoundForGood(t);
    } else {
      var m :| m in Users(s.phases, id);
      if s.phases[m].Live? {
        ItemInsert(s, n, m);
        assert AllEnabled(t, []) && AllHarmless(t, []) && !ItemsSound(Run(t, []));
      } else {
        ShareInsert(s, n, m);
      }
    }
  }

  /** It loses a count if and only if there is an entry. */
  lemma CountKeptExactly(s: State, n: nat)
    requires Inv(s) && AllCounted(s) && Enabled(s, Insert(n))
    ensures AllCounted(Apply(s, Insert(n))) <==> s.phases[n].id !in s.table
  {
    var id, t := s.phases[n].id, Apply(s, Insert(n));
    if id in s.table {
      assert InBounds(s, id);
      SizesMove(s.phases, t.phases, n, id);
    } else {
      CountsKept(s, Insert(n));
    }
  }

  /** It leaves them sound at once if and only if there is no item of the id. */
  lemma InsertAtOnce(s: State, n: nat)
    requires Inv(s) && Enabled(s, Insert(n))
    ensures ItemsSound(Apply(s, Insert(n))) <==> Items(s.phases, s.phases[n].id) == {}
  {
    var id, t := s.phases[n].id, Apply(s, Insert(n));
    if Items(s.phases, id) == {} {
      InvSound(s);
      FirstItem(s, n, t);
    } else {
      var m :| m in Items(s.phases, id);
      ItemInsert(s, n, m);
    }
  }

  lemma FidStillApart(s: State, n: nat, m: nat)
    requires Exclusive(s) && Backed(s) && Enabled(s, Insert(n)) && m in s.phases && s.phases[m].Live?
    ensures s.phases[m].fid != s.phases[n].temp
  {
    assert Owns(s.phases[n]) != Some(s.table[s.phases[m].id].fid);
  }

  lemma NoItems(phases: map<nat, Phase>, id: Id)
    requires Items(phases, id) == {}
    ensures forall m :: m in phases ==> !LiveOn(phases[m], id)
  {
    assert forall m :: m in phases && LiveOn(phases[m], id) ==> m in Items(phases, id);
  }

  lemma FirstItem(s: State, n: nat, t: State)
    requires Exclusive(s) && Backed(s) && ItemsSound(s) && Enabled(s, Insert(n)) && t == Apply(s, Insert(n))
    requires Items(s.phases, s.phases[n].id) == {}
    ensures ItemsSound(t)
  {
    NoItems(s.phases, s.phases[n].id);
    forall m | m in t.phases && t.phases[m].Live? ensures t.phases[m].fid in t.held {}
    forall m, k | m in t.phases && k in t.phases && t.phases[k].Live?
      ensures t.phases[m].Live? ==> (t.phases[m].id == t.phases[k].id <==> t.phases[m].fid == t.phases[k].fid)
      ensures Owns(t.phases[m]) != Some(t.phases[k].fid)
    {
      FirstPair(s, n, t, m, k);
    }
    FirstCount(s, n, t);
  }

  lemma FirstPair(s: State, n: nat, t: State, m: nat, k: nat)
    requires Exclusive(s) && Backed(s) && ItemsSound(s) && Enabled(s, Insert(n)) && t == Apply(s, Insert(n))
    requires forall i :: i in s.phases ==> !LiveOn(s.phases[i], s.phases[n].id)
    requires m in t.phases && k in t.phases && t.phases[k].Live?
    ensures t.phases[m].Live? ==> (t.phases[m].id == t.phases[k].id <==> t.phases[m].fid == t.phases[k].fid)
    ensures Owns(t.phases[m]) != Some(t.phases[k].fid)
  {
    if m != n && s.phases[m].Live? { FidStillApart(s, n, m); }
    if k != n { FidStillApart(s, n, k); }
  }

  lemma FirstCount(s: State, n: nat, t: State)
    requires ItemsSound(s) && Enabled(s, Insert(n)) && t == Apply(s, Insert(n))
    requires Items(s.phases, s.phases[n].id) == {}
    ensures forall i :: i in t.table ==> |Items(t.phases, i)| <= t.table[i].refCount
  {
    var id := s.phases[n].id;
    assert Items(t.phases, id) == Items(s.phases, id) + {n} == {n};
    forall i | i in t.table && i != id ensures Items(t.phases, i) == Items(s.phases, i) {}
  }

  /** The items are sound for good all along the run. */
  ghost predicate SoundThroughout(s: State, steps: seq<Step>)
    requires AllEnabled(s, steps)
    decreases |steps|
  {
    SoundForGood(s) && (steps != [] ==> SoundThroughout(Apply(s, steps[0]), steps[1..]))
  }

  /** So the condition of TableSound is exact: in any other run the soundness is lost, at the first insertion that
      writes over an entry in use. */
  lemma {:induction false} HarmlessExactly(s: State, steps: seq<Step>)
    requires Inv(s) && AllEnabled(s, steps)
    ensures SoundThroughout(s, steps) <==> AllHarmless(s, steps)
    decreases |steps|
  {
    InvSoundForGood(s);
    if steps != [] {
      if Harmless(s, steps[0]) {
        StepKeeps(s, steps[0]);
        HarmlessExactly(Apply(s, steps[0]), steps[1..]);
      } else {
        InsertExactly(s, steps[0].n);
      }
    }
  }

  // ----- crossing lookups -----

  ghost predicate Leads(s: State, steps: seq<Step>, t: State) { AllEnabled(s, steps) && Run(s, steps) == t }

  lemma {:induction false} LeadsOn(s: State, steps: seq<Step>, t: State, step: Step)
    requires Leads(s, steps, t) && Enabled(t, step)
    ensures Leads(s, steps + [step], Apply(t, step))
    ensures AllHarmless(s, steps + [step]) <==> AllHarmless(s, steps) && Harmless(t, step)
    ensures AllUncrossed(s, steps + [step]) <==> AllUncrossed(s, steps) && Uncrossed(t, step)
    decreases |steps|
  {
    var more := steps + [step];
    if steps == [] {
      assert more[0] == step && more[1..] == [];
    } else {
      LeadsOn(Apply(s, steps[0]), steps[1..], t, step);
      assert more[0] == steps[0] && more[1..] == steps[1..] + [step];
    }
  }

  const CROSSING := [Begin(1, 11), Begin(2, 12), WalkDone(1, 7), WalkDone(2, 7), Check(1), Check(2)]

  function FirstAt(i: nat): Phase { if i <= 2 then Walking(11) else if i <= 4 then Resolved(11, 7) else Missing(11, 7) }
  function SecondAt(i: nat): Phase {
    if i <= 3 then Walking(12) else if i <= 5 then Resolved(12, 7) else Missing(12, 7)
  }

  /** The state after the first i steps of CROSSING. */
  function Stage(i: nat, root: Fid): State {
    var s := Mounted(root);
    var t := if i >= 1 then s.(phases := s.phases[1 := FirstAt(i)], held := s.held + {11}) else s;
    if i >= 2 then t.(phases := t.phases[2 := SecondAt(i)], held := t.held + {12}) else t
  }

  lemma StageStep(i: nat, root: Fid)
    requires i < 6 && root != 11 && root != 12
    ensures Enabled(Stage(i, root), CROSSING[i]) && Apply(Stage(i, root), CROSSING[i]) == Stage(i + 1, root)
  {}

  /** Both lookups have walked, and neither has found an entry. */
  lemma BothMissing(root: Fid) returns (steps: seq<Step>)
    requires root != 11 && root != 12
    ensures Leads(Mounted(root), steps, Stage(6, root)) && AllHarmless(Mounted(root), steps)
  {
    steps := [];
    for i := 0 to 6
      invariant Leads(Mounted(root), steps, Stage(i, root)) && AllHarmless(Mounted(root), steps)
    {
      StageStep(i, root);
      LeadsOn(Mounted(root), steps, Stage(i, root), CROSSING[i]);
      steps := steps + [CROSSING[i]];
    }
  }

  /** Two first lookups of one id that cross leave two items with different fids; reclaiming the first then
      takes away the entry of the second. */
  lemma CrossingLookups(root: Fid) returns (steps: seq<Step>, s: State, t: State)
    requires root != 11 && root != 12
    ensures Leads(Mounted(root), steps, s) && Enabled(s, Reclaim(1)) && t == Apply(s, Reclaim(1))
    ensures 1 in s.phases && 2 in s.phases && s.phases[1] == Live(7, 11) && s.phases[2] == Live(7, 12) && !ItemsSound(s)
    ensures 2 in t.phases && t.phases[2] == Live(7, 12) && 7 !in t.table
  {
    steps := BothMissing(root);
    s := Stage(6, root);
    LeadsOn(Mounted(root), steps, s, Insert(1));
    steps, s := steps + [Insert(1)], Apply(s, Insert(1));
    LeadsOn(Mounted(root), steps, s, Insert(2));
    steps, s := steps + [Insert(2)], Apply(s, Insert(2));
    assert s.table[7] == FidEntry(12, 1);
    t := Apply(s, Reclaim(1));
  }

  const SHARING := [Begin(3, 13), WalkDone(3, 7), Insert(1), Check(3), TempClunkFails(3), Reclaim(1), Insert(2)]

  function EntryAt(i: nat): FidEntry {
    FidEntry(if i <= 6 then 11 else 12, if i == 4 || i == 5 then 2 else 1)
  }

  function ThirdAt(i: nat): Phase {
    if i == 1 then Walking(13) else if i <= 3 then Resolved(13, 7) else if i == 4 then Sharing(13, 7, 11)
    else Miscounted(13, 7)
  }

  /** The state after the first i steps of SHARING, from where the first two lookups have found no entry. */
  function Shared(i: nat, root: Fid): State {
    var s := Stage(6, root);
    var third := if i >= 1 then s.(phases := s.phases[3 := ThirdAt(i)], held := s.held + {13}) else s;
    var first := if i <= 2 then third else if i <= 5 then third.(phases := third.phases[1 := Live(7, 11)])
      else third.(phases := third.phases - {1});
    var second := if i <= 6 then first else first.(phases := first.phases[2 := Live(7, 12)]);
    if i <= 2 then second else second.(table := second.table[7 := EntryAt(i)])
  }

  lemma SharedStep(i: nat, root: Fid)
    requires i < 7 && root != 11 && root != 12 && root != 13
    ensures Enabled(Shared(i, root), SHARING[i]) && Apply(Shared(i, root), SHARING[i]) == Shared(i + 1, root)
    ensures Harmless(Shared(i, root), SHARING[i]) && (i == 6 ==> !Uncrossed(Shared(i, root), SHARING[i]))
  {}

  /** Not every crossing does harm: a third lookup shares the entry of the first, fails, and leaves it behind when the
      first item goes; the second lookup then writes over an entry that nobody uses. */
  lemma CrossedUnharmed(root: Fid) returns (steps: seq<Step>)
    requires root != 11 && root != 12 && root != 13
    ensures Leads(Mounted(root), steps, Shared(7, root)) && AllHarmless(Mounted(root), steps)
    ensures !AllUncrossed(Mounted(root), steps)
    ensures Shared(7, root).table[7] == FidEntry(12, 1) && Shared(7, root).phases[2] == Live(7, 12) &&
      Shared(7, root).phases[3] == Miscounted(13, 7)
  {
    steps := BothMissing(root);
    for i := 0 to 7
      invariant Leads(Mounted(root), steps, Shared(i, root)) && AllHarmless(Mounted(root), steps)
      invariant i == 7 ==> !AllUncrossed(Mounted(root), steps)
    {
      SharedStep(i, root);
      LeadsOn(Mounted(root), steps, Shared(i, root), SHARING[i]);
      steps := steps + [SHARING[i]];
    }
  }
}
