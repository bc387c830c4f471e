/** Resumable directory listings of Mac9PVolume.swift: a cookie names a snapshot generation and an index into
    it. A call of enumerateDirectory looks at the snapshot table in one lock section and, if it has to fetch
    the directory, stores a fresh snapshot in another one; any number of calls can be between the two. */
module Cookies {
  import opened Options

  const WRAP32 := 0x1_0000_0000
  const WRAP64 := 0x1_0000_0000_0000_0000

  type Id = nat
  type Entry = nat
  type Generation = g: nat | g < WRAP32
  type Cookie = c: nat | c < WRAP64

  /** What a directory holds; an index of 32 bits can count it. */
  type Listing = e: seq<Entry> | |e| < WRAP32 witness []

  /** FSDirectoryCookie.initial. */
  const INITIAL: Cookie := 0

  datatype Snapshot = Snapshot(generation: Generation, entries: Listing)

  /** An entry as it is handed to the packer, with the cookie to resume behind it. */
  datatype Packed = Packed(entry: Entry, next: Cookie)

  datatype Report = Invalid | Listed(generation: Generation, packed: seq<Packed>)

  // ----- cookies -----

  function Encode(gen: Generation, idx: nat): Cookie
    requires idx < WRAP32
  {
    gen * WRAP32 + idx
  }

  function Decode(c: Cookie): (Generation, nat) { if c == INITIAL then (0, 0) else (c / WRAP32, c % WRAP32) }

  lemma DecodeEncode(gen: Generation, idx: nat)
    requires gen != 0 && idx < WRAP32
    ensures Decode(Encode(gen, idx)) == (gen, idx) && Encode(gen, idx) != INITIAL
    ensures Encode(gen, idx) / WRAP32 == gen && Encode(gen, idx) % WRAP32 == idx
  {
    var c := Encode(gen, idx);
    assert c / WRAP32 == gen && c % WRAP32 == idx;
  }

  // ----- one call -----

  datatype State = State(snaps: map<Id, Snapshot>, next: Generation)

  const INIT := State(map[], 1)

  function Least(a: nat, b: nat): nat { if a < b then a else b }

  /** Entries of a snapshot from start on, up to the first one the packer turns down. */
  function Pack(snap: Snapshot, start: nat, room: nat): (r: seq<Packed>)
    requires start <= |snap.entries|
    ensures |r| == Least(room, |snap.entries| - start)
  {
    seq(Least(room, |snap.entries| - start), k requires 0 <= k < |snap.entries| - start =>
      Packed(snap.entries[start + k], Encode(snap.generation, start + k + 1)))
  }

  function PackFrom(snap: Snapshot, start: nat, room: nat): Report {
    if start > |snap.entries| then Invalid else Listed(snap.generation, Pack(snap, start, room))
  }

  predicate Cached(s: State, dir: Id) { dir in s.snaps && s.snaps[dir].generation != 0 }

  /** What the first lock section leads to: the directory must be fetched, or the call is answered. */
  datatype Looked = Fetch | Answer(report: Report)

  /** room is how many entries the packer takes. */
  function Look(s: State, dir: Id, cookie: Cookie, room: nat): Looked {
    if cookie == INITIAL || !Cached(s, dir) then Fetch
    else if Decode(cookie).0 != s.snaps[dir].generation then Answer(Invalid)
    else Answer(PackFrom(s.snaps[dir], Decode(cookie).1, room))
  }

  /** current is what has been fetched. */
  function Store(s: State, dir: Id, cookie: Cookie, current: Listing, room: nat): (State, Report) {
    var snap := Snapshot(s.next, current);
    (State(s.snaps[dir := snap], (s.next + 1) % WRAP32), PackFrom(snap, Decode(cookie).1, room))
  }

  // ----- the volume's fields -----

  class Volume {
    var dirSnapshots: map<Id, Snapshot>
    var nextDirGeneration: Generation

    constructor ()
      ensures State(dirSnapshots, nextDirGeneration) == INIT
    {
      dirSnapshots, nextDirGeneration := map[], 1;
    }

    /** enumerateDirectory up to its fetch. */
    method LookUp(dir: Id, cookie: Cookie, room: nat) returns (looked: Looked)
      ensures looked == Look(State(dirSnapshots, nextDirGeneration), dir, cookie, room)
    {
      var (gen, startIndex) := Decode(cookie);
      var snapshot := Snapshot(0, []);
      if cookie != INITIAL && dir in dirSnapshots { snapshot := dirSnapshots[dir]; }
      if cookie == INITIAL || snapshot.generation == 0 { return Fetch; }
      if gen != snapshot.generation { return Answer(Invalid); }
      if startIndex > |snapshot.entries| { return Answer(Invalid); }
      var packed := PackLoop(snapshot, startIndex, room);
      return Answer(Listed(snapshot.generation, packed));
    }

    /** And from there on. */
    method StoreFresh(dir: Id, cookie: Cookie, current: Listing, room: nat) returns (report: Report)
      modifies this
      ensures (State(dirSnapshots, nextDirGeneration), report) ==
        Store(old(State(dirSnapshots, nextDirGeneration)), dir, cookie, current, room)
    {
      var (_, startIndex) := Decode(cookie);
      var g := nextDirGeneration;
      nextDirGeneration := (nextDirGeneration + 1) % WRAP32;
      var active := Snapshot(g, current);
      dirSnapshots := dirSnapshots[dir := active];
      if startIndex > |active.entries| { return Invalid; }
      var packed := PackLoop(active, startIndex, room);
      return Listed(active.generation, packed);
    }
  }

  method PackLoop(active: Snapshot, startIndex: nat, room: nat) returns (packed: seq<Packed>)
    requires startIndex <= |active.entries|
    ensures packed == Pack(active, startIndex, room)
  {
    packed := [];
    for i := startIndex to |active.entries|
      invariant i - startIndex <= |Pack(active, startIndex, room)|
      invariant packed == Pack(active, startIndex, room)[..i - startIndex]
    {
      var ok := |packed| < room;
      if !ok { break; }
      packed := packed + [Packed(active.entries[i], Encode(active.generation, i + 1))];
    }
  }

  // ----- calls side by side -----

  /** A call that is fetching its directory. */
  datatype Pending = Pending(dir: Id, cookie: Cookie, room: nat)

  /** Each generation given out so far belongs to one listing of one directory; snapshots are the latest. */
  datatype History = History(s: State, listings: map<Generation, (Id, Listing)>, fetching: map<nat, Pending>,
    connected: bool)

  datatype Step =
    | Begin(task: nat, dir: Id, cookie: Cookie, room: nat)   // up to the fetch
    | Fetched(task: nat, current: Listing)                   // and from there on
    | FetchFails(task: nat)
    | Mount                                                  // the client has connected; snapshots stay
    | Disconnect                                             // unmount comes to disconnect
    | Unmount                                                // and to its lock section

  /** Fewer than 2^32 - 1 generations are given out. */
  predicate Enabled(h: History, step: Step) {
    match step
    case Begin(task, _, _, _) => task !in h.fetching
    case Fetched(task, _) => task in h.fetching && h.s.next < WRAP32 - 1
    case FetchFails(task) => task in h.fetching
    case _ => true
  }

  /** Without a connection a fetch fails at once. One under way at a disconnect may have its data already. */
  function Apply(h: History, step: Step): History
    requires Enabled(h, step)
  {
    match step
    case Begin(task, dir, cookie, room) =>
      if Look(h.s, dir, cookie, room).Fetch? && h.connected then
        h.(fetching := h.fetching[task := Pending(dir, cookie, room)])
      else h
    case Fetched(task, current) =>
      var c := h.fetching[task];
      h.(s := Store(h.s, c.dir, c.cookie, current, c.room).0, listings := h.listings[h.s.next := (c.dir, current)],
        fetching := h.fetching - {task})
    case FetchFails(task) => h.(fetching := h.fetching - {task})
    case Mount => h.(connected := true)
    case Disconnect => h.(connected := false)
    case Unmount => h.(s := h.s.(snaps := map[]))
  }

  /** What the call reports to FSKit in this step, if it ends with one. */
  function Reported(h: History, step: Step): Option<Report>
    requires Enabled(h, step)
  {
    match step
    case Begin(_, dir, cookie, room) =>
      var looked := Look(h.s, dir, cookie, room);
      if looked.Fetch? then None else Some(looked.report)
    case Fetched(task, current) =>
      var c := h.fetching[task];
      Some(Store(h.s, c.dir, c.cookie, current, c.room).1)
    case _ => None
  }

  predicate Recorded(h: History, dir: Id, snap: Snapshot) {
    snap.generation in h.listings && h.listings[snap.generation] == (dir, snap.entries)
  }

  ghost predicate Inv(h: History) {
    && 1 <= h.s.next
    && (forall g :: g in h.listings <==> 1 <= g < h.s.next)
    && (forall d :: d in h.s.snaps ==> Recorded(h, d, h.s.snaps[d]))
    && (forall d, g :: d in h.s.snaps && g in h.listings && h.listings[g].0 == d ==> g <= h.s.snaps[d].generation)
  }

  ghost predicate Grows(h: History, t: History) {
    h.s.next <= t.s.next && forall g :: g in h.listings ==> g in t.listings && t.listings[g] == h.listings[g]
  }

  /** Generations never change hands: each stays with the one listing of the one directory it was given out for. */
  lemma StepKeeps(h: History, step: Step)
    requires Inv(h) && Enabled(h, step)
    ensures Inv(Apply(h, step)) && Grows(h, Apply(h, step))
  {
    if step.Fetched? {
      var c, t := h.fetching[step.task], Apply(h, step);
      assert t.s.next == h.s.next + 1 && h.s.next !in h.listings;
    }
  }

  ghost predicate Possible(h: History, steps: seq<Step>)
    decreases |steps|
  {
    steps == [] || (Enabled(h, steps[0]) && Possible(Apply(h, steps[0]), steps[1..]))
  }

  ghost function Run(h: History, steps: seq<Step>): History
    requires Possible(h, steps)
    decreases |steps|
  {
    if steps == [] then h else Run(Apply(h, steps[0]), steps[1..])
  }

  lemma {:induction false} RunKeeps(h: History, steps: seq<Step>)
    requires Inv(h) && Possible(h, steps)
    ensures Inv(Run(h, steps)) && Grows(h, Run(h, steps))
    decreases |steps|
  {
    if steps != [] {
      StepKeeps(h, steps[0]);
      RunKeeps(Apply(h, steps[0]), steps[1..]);
    }
  }

  const START := History(INIT, map[], map[], false)

  lemma Started()
    ensures Inv(START)
  {}

  // ----- entries of two listings never mix, while there is a snapshot -----

  /** The packed entries are those of the listing from idx on, without a gap, each with the cookie that leads
      behind it. */
  ghost predicate Lists(packed: seq<Packed>, gen: Generation, listing: Listing, idx: nat) {
    && idx + |packed| <= |listing|
    && forall k :: 0 <= k < |packed| ==> packed[k] == Packed(listing[idx + k], Encode(gen, idx + k + 1))
  }

  /** The report refuses the cookie, or goes on with the very listing of the directory that it came from. */
  ghost predicate StaysInListing(h: History, dir: Id, cookie: Cookie, r: Report) {
    var (gen, idx) := Decode(cookie);
    r.Listed? ==>
    gen in h.listings && h.listings[gen].0 == dir && r.generation == gen && Lists(r.packed, gen, h.listings[gen].1, idx)
  }

  /** A continuation that finds a snapshot stays in its listing. */
  lemma AnswerStays(h: History, dir: Id, cookie: Cookie, room: nat)
    requires Inv(h) && cookie != INITIAL && dir in h.s.snaps
    ensures Look(h.s, dir, cookie, room).Answer? && StaysInListing(h, dir, cookie, Look(h.s, dir, cookie, room).report)
  {}

  /** One that does not is served from a listing made for it, unless its index is too large for that. */
  lemma FreshServes(h: History, task: nat, current: Listing)
    requires Inv(h) && Enabled(h, Fetched(task, current))
    ensures var (_, idx) := Decode(h.fetching[task].cookie); var r := Reported(h, Fetched(task, current)).value;
      if idx > |current| then r == Invalid
      else r.Listed? && r.generation == h.s.next && Lists(r.packed, h.s.next, current, idx)
  {}

  /** A continuation as a whole, with any steps of other calls between its two lock sections. */
  ghost predicate Continuation(h: History, begin: Step, between: seq<Step>, end: Step) {
    && begin.Begin? && begin.cookie != INITIAL && Enabled(h, begin)
    && Look(h.s, begin.dir, begin.cookie, begin.room).Fetch?
    && Possible(Apply(h, begin), between) && end.Fetched? && end.task == begin.task
    && Enabled(Run(Apply(h, begin), between), end)
    && Run(Apply(h, begin), between).fetching[end.task] == Pending(begin.dir, begin.cookie, begin.room)
  }

  /** A continuation stays in its listing if and only if the directory has a snapshot when it looks, or its index
      lies beyond what it then fetches. */
  lemma StaysExactly(h: History, begin: Step, between: seq<Step>, end: Step)
    requires Inv(h) && begin.Begin? && begin.cookie != INITIAL && Enabled(h, begin)
    requires Look(h.s, begin.dir, begin.cookie, begin.room).Fetch? ==> Continuation(h, begin, between, end)
    ensures var looked := Look(h.s, begin.dir, begin.cookie, begin.room);
      var r := if looked.Answer? then looked.report else Reported(Run(Apply(h, begin), between), end).value;
      StaysInListing(h, begin.dir, begin.cookie, r) <==>
        begin.dir in h.s.snaps || Decode(begin.cookie).1 > |end.current|
  {
    if begin.dir in h.s.snaps {
      AnswerStays(h, begin.dir, begin.cookie, begin.room);
    } else {
      var t := Apply(h, begin);
      StepKeeps(h, begin);
      RunKeeps(t, between);
      FreshServes(Run(t, between), end.task, end.current);
    }
  }

  ghost predicate Leads(h: History, steps: seq<Step>, t: History) { Possible(h, steps) && Run(h, steps) == t }

  lemma {:induction false} LeadsOn(h: History, steps: seq<Step>, t: History, step: Step)
    requires Leads(h, steps, t) && Enabled(t, step)
    ensures Leads(h, steps + [step], Apply(t, step))
    decreases |steps|
  {
    var more := steps + [step];
    if steps == [] {
      assert more[0] == step && more[1..] == [];
    } else {
      LeadsOn(Apply(h, steps[0]), steps[1..], t, step);
      assert more[0] == steps[0] && more[1..] == steps[1..] + [step];
    }
  }

  const HELD: Listing := [10, 20, 30]
  const AFTERWARDS: Listing := [40, 50]

  const REMOUNTED := [Mount, Begin(1, 5, INITIAL, 1), Fetched(1, HELD), Disconnect, Unmount, Mount,
                      Begin(2, 5, Encode(1, 1), 9)]

  /** The state after the first i steps of REMOUNTED. */
  function Remounting(i: nat): History {
    History(State(if i == 3 || i == 4 then map[5 := Snapshot(1, HELD)] else map[], if i <= 2 then 1 else 2),
            if i <= 2 then map[] else map[1 := (5, HELD)],
            if i == 2 then map[1 := Pending(5, INITIAL, 1)]
            else if i >= 7 then map[2 := Pending(5, Encode(1, 1), 9)] else map[],
            i != 0 && i != 4 && i != 5)
  }

  lemma RemountStep(i: nat)
    requires i < 7
    ensures Enabled(Remounting(i), REMOUNTED[i]) && Apply(Remounting(i), REMOUNTED[i]) == Remounting(i + 1)
  {
    DecodeEncode(1, 1);
  }

  /** Directory 5 is listed, but for its last two entries; the volume is unmounted and mounted again, which leaves
      the snapshots gone; the listing goes on from its cookie, behind 10, and reports 50, of another generation,
      passing over 40. */
  lemma UnmountMixes() returns (steps: seq<Step>, h: History, end: Step)
    ensures Possible(START, steps) && h == Run(START, steps) && Inv(h) && Enabled(h, end)
    ensures h.listings == map[1 := (5, HELD)] && h.fetching == map[2 := Pending(5, Encode(1, 1), 9)]
    ensures end == Fetched(2, AFTERWARDS) && Reported(h, end) == Some(Listed(2, [Packed(50, Encode(2, 2))]))
    ensures !StaysInListing(h, 5, Encode(1, 1), Reported(h, end).value)
  {
    steps := [];
    assert Remounting(0) == START;
    for i := 0 to 7
      invariant Leads(START, steps, Remounting(i))
    {
      RemountStep(i);
      LeadsOn(START, steps, Remounting(i), REMOUNTED[i]);
      steps := steps + [REMOUNTED[i]];
    }
    h, end := Remounting(7), Fetched(2, AFTERWARDS);
    Started();
    RunKeeps(START, steps);
    DecodeEncode(1, 1);
    assert Pack(Snapshot(2, AFTERWARDS), 1, 9) == [Packed(50, Encode(2, 2))];
  }

  // ----- an initial enumeration always fetches -----

  /** A listing reported to a call that starts at the beginning is of a new generation, of what it has fetched. */
  lemma InitialIsFresh(h: History, step: Step)
    requires Inv(h) && Enabled(h, step) && Reported(h, step).Some? && Reported(h, step).value.Listed?
    requires if step.Begin? then step.cookie == INITIAL else step.Fetched? && h.fetching[step.task].cookie == INITIAL
    ensures step.Fetched? && Reported(h, step).value.generation == h.s.next && h.s.next !in h.listings
    ensures Lists(Reported(h, step).value.packed, h.s.next, step.current, 0)
  {}

  /** Without a connection nothing is fetched and nothing is listed afresh; snapshots still answer. */
  lemma OfflineKeeps(h: History, begin: Step)
    requires !h.connected && begin.Begin? && Enabled(h, begin)
    ensures Apply(h, begin) == h
    ensures Reported(h, begin).Some? <==> begin.cookie != INITIAL && Cached(h.s, begin.dir)
  {}

  /** A fetch that fails stores nothing and reports nothing, and the call is over. */
  lemma FailureKeeps(h: History, task: nat)
    requires Enabled(h, FetchFails(task))
    ensures var t := Apply(h, FetchFails(task)); t.s == h.s && t.listings == h.listings && task !in t.fetching
    ensures Reported(h, FetchFails(task)).None?
  {}

  /** So over the whole call, whatever other calls do in between: its generation was not there when it began. */
  lemma InitialRefreshes(h: History, begin: Step, between: seq<Step>, end: Step)
    requires Inv(h) && begin.Begin? && begin.cookie == INITIAL && Enabled(h, begin)
    requires Possible(Apply(h, begin), between) && end.Fetched? && end.task == begin.task
    requires var t := Run(Apply(h, begin), between);
      Enabled(t, end) && t.fetching[end.task] == Pending(begin.dir, begin.cookie, begin.room)
    ensures Look(h.s, begin.dir, begin.cookie, begin.room) == Fetch
    ensures var r := Reported(Run(Apply(h, begin), between), end).value;
      r.Listed? && r.generation !in h.listings && Lists(r.packed, r.generation, end.current, 0)
  {
    var t := Apply(h, begin);
    StepKeeps(h, begin);
    RunKeeps(t, between);
    FreshServes(Run(t, between), end.task, end.current);
    InitialIsFresh(Run(t, between), end);
  }

  // ----- how long a listing stays current -----

  /** The step stores another listing of the directory, or unmounts. */
  predicate Disturbs(h: History, step: Step, dir: Id) {
    step.Unmount? || (step.Fetched? && step.task in h.fetching && h.fetching[step.task].dir == dir)
  }

  /** A step keeps the snapshot of a directory if and only if it does neither; begun calls, refused and answered
      continuations and all that happens to other directories leave it alone. */
  lemma SnapshotKeptExactly(h: History, step: Step, dir: Id)
    requires Inv(h) && Enabled(h, step) && dir in h.s.snaps
    ensures (dir in Apply(h, step).s.snaps && Apply(h, step).s.snaps[dir] == h.s.snaps[dir]) <==>
      !Disturbs(h, step, dir)
  {
    if step.Fetched? { assert h.s.next !in h.listings; }
  }

  const MEANWHILE: Listing := [60, 70]

  const OVERTAKEN := [Mount, Begin(1, 5, Encode(7, 1), 9), Begin(2, 5, INITIAL, 1), Fetched(2, MEANWHILE),
                      Fetched(1, AFTERWARDS)]

  /** The state after the first i steps of OVERTAKEN. */
  function Overtaking(i: nat): History {
    var stale, initial := Pending(5, Encode(7, 1), 9), Pending(5, INITIAL, 1);
    History(if i <= 3 then INIT else if i == 4 then State(map[5 := Snapshot(1, MEANWHILE)], 2)
            else State(map[5 := Snapshot(2, AFTERWARDS)], 3),
            if i <= 3 then map[] else if i == 4 then map[1 := (5, MEANWHILE)]
            else map[1 := (5, MEANWHILE), 2 := (5, AFTERWARDS)],
            if i == 2 || i == 4 then map[1 := stale] else if i == 3 then map[1 := stale, 2 := initial] else map[],
            i != 0)
  }

  lemma OvertakingStep(i: nat)
    requires i < 5
    ensures Enabled(Overtaking(i), OVERTAKEN[i]) && Apply(Overtaking(i), OVERTAKEN[i]) == Overtaking(i + 1)
  {
    DecodeEncode(7, 1);
  }

  /** A continuation that has found no snapshot replaces the listing that another call has made in the meantime:
      that one's cookie is refused from then on. */
  lemma OverwrittenMeanwhile() returns (steps: seq<Step>, h: History)
    ensures Possible(START, steps) && h == Run(START, steps) && Inv(h)
    ensures 5 in h.s.snaps && h.s.snaps[5] == Snapshot(2, AFTERWARDS) && 1 in h.listings &&
      h.listings[1] == (5, MEANWHILE)
    ensures Look(h.s, 5, Encode(1, 1), 9) == Answer(Invalid)
  {
    steps := [];
    assert Overtaking(0) == START;
    for i := 0 to 5
      invariant Leads(START, steps, Overtaking(i))
    {
      OvertakingStep(i);
      LeadsOn(START, steps, Overtaking(i), OVERTAKEN[i]);
      steps := steps + [OVERTAKEN[i]];
    }
    h := Overtaking(5);
    Started();
    RunKeeps(START, steps);
    DecodeEncode(1, 1);
  }

  // ----- older cookies -----

  /** The directory will not be listed under generation gen again. */
  ghost predicate Passed(h: History, dir: Id, gen: Generation) {
    gen in h.listings && (dir in h.s.snaps ==> gen < h.s.snaps[dir].generation)
  }

  predicate Mounted(steps: seq<Step>) { forall k :: 0 <= k < |steps| ==> !steps[k].Unmount? }

  lemma {:induction false} StaysPassed(h: History, steps: seq<Step>, dir: Id, gen: Generation)
    requires Inv(h) && Possible(h, steps) && Passed(h, dir, gen)
    ensures Inv(Run(h, steps)) && Passed(Run(h, steps), dir, gen)
    ensures Mounted(steps) && dir in h.s.snaps ==> dir in Run(h, steps).s.snaps
    decreases |steps|
  {
    if steps != [] {
      StepKeeps(h, steps[0]);
      StaysPassed(Apply(h, steps[0]), steps[1..], dir, gen);
    }
  }

  /** Once a newer listing of a directory has been stored, and whatever happens next, an older cookie of it is turned
      away if and only if the directory has a snapshot then; short of an unmount it has. */
  lemma OlderCookieRejected(h: History, gen: Generation, idx: nat, newer: Step, steps: seq<Step>, room: nat)
    requires Inv(h) && Enabled(h, newer) && newer.Fetched? && gen in h.listings && idx < WRAP32
    requires Possible(Apply(h, newer), steps)
    ensures var s, dir := Run(Apply(h, newer), steps).s, h.fetching[newer.task].dir;
      (Look(s, dir, Encode(gen, idx), room) == Answer(Invalid) <==> dir in s.snaps) &&
      (Mounted(steps) ==> dir in s.snaps)
  {
    StepKeeps(h, newer);
    StaysPassed(Apply(h, newer), steps, h.fetching[newer.task].dir, gen);
    DecodeEncode(gen, idx);
  }

  // ----- resuming -----

  function EntriesOf(packed: seq<Packed>): (r: seq<Entry>)
    ensures |r| == |packed|
  {
    seq(|packed|, k requires 0 <= k < |packed| => packed[k].entry)
  }

  function Behind(cookie: Cookie, packed: seq<Packed>): Cookie {
    if packed == [] then cookie else packed[|packed| - 1].next
  }

  /** FSKit resumes one listing, room entries at a time, while other calls go on. */
  datatype Move = More(room: nat) | Meanwhile(step: Step)

  function Total(plan: seq<Move>): nat {
    if plan == [] then 0 else (if plan[0].More? then plan[0].room else 0) + Total(plan[1..])
  }

  /** No step in between stores another listing of the directory, or unmounts. */
  ghost predicate Undisturbed(h: History, dir: Id, plan: seq<Move>)
    decreases |plan|
  {
    plan != [] ==>
      match plan[0]
      case More(_) => Undisturbed(h, dir, plan[1..])
      case Meanwhile(step) => Enabled(h, step) && !Disturbs(h, step, dir) && Undisturbed(Apply(h, step), dir, plan[1..])
  }

  /** The entries reported, each continuation from the cookie of the last entry accepted, until one is refused. */
  ghost function Collected(h: History, dir: Id, cookie: Cookie, plan: seq<Move>): seq<Entry>
    requires Undisturbed(h, dir, plan)
    decreases |plan|, 0
  {
    if plan == [] then []
    else
      match plan[0]
      case More(room) => CollectedMore(h, dir, cookie, Look(h.s, dir, cookie, room), plan[1..])
      case Meanwhile(step) => Collected(Apply(h, step), dir, cookie, plan[1..])
  }

  ghost function CollectedMore(h: History, dir: Id, cookie: Cookie, looked: Looked, plan: seq<Move>): seq<Entry>
    requires Undisturbed(h, dir, plan)
    decreases |plan|, 1
  {
    if looked.Fetch? || looked.report.Invalid? then []
    else EntriesOf(looked.report.packed) + Collected(h, dir, Behind(cookie, looked.report.packed), plan)
  }

  lemma PackedEntries(snap: Snapshot, idx: nat, room: nat)
    requires idx <= |snap.entries|
    ensures var packed := Pack(snap, idx, room);
      && EntriesOf(packed) == snap.entries[idx..Least(idx + room, |snap.entries|)]
      && (packed == [] <==> Least(idx + room, |snap.entries|) == idx)
      && (packed != [] ==> packed[|packed| - 1].next == Encode(snap.generation, Least(idx + room, |snap.entries|)))
  {
    var packed := Pack(snap, idx, room);
    forall k | 0 <= k < |packed| ensures EntriesOf(packed)[k] == snap.entries[idx..idx + |packed|][k] {
      assert packed[k].entry == snap.entries[idx + k];
    }
    assert idx + |packed| == Least(idx + room, |snap.entries|);
  }

  /** One continuation at idx reports the next entries of the snapshot and leads behind them. */
  lemma OneMore(s: State, dir: Id, snap: Snapshot, idx: nat, room: nat)
    requires dir in s.snaps && s.snaps[dir] == snap && snap.generation != 0 && idx <= |snap.entries|
    ensures var cookie, next := Encode(snap.generation, idx), Least(idx + room, |snap.entries|);
      var looked := Look(s, dir, cookie, room);
      && looked.Answer? && looked.report.Listed?
      && EntriesOf(looked.report.packed) == snap.entries[idx..next]
      && Behind(cookie, looked.report.packed) == Encode(snap.generation, next)
  {
    DecodeEncode(snap.generation, idx);
    PackedEntries(snap, idx, room);
  }

  /** Two parts that adjoin. */
  lemma Glue(head: seq<Entry>, rest: seq<Entry>, entries: seq<Entry>, a: nat, b: nat, c: nat)
    requires a <= b <= c <= |entries| && head == entries[a..b] && rest == entries[b..c]
    ensures head + rest == entries[a..c]
  {}

  lemma LeastTwice(idx: nat, room: nat, more: nat, n: nat)
    requires idx <= n
    ensures idx <= Least(idx + room, n) <= Least(Least(idx + room, n) + more, n) == Least(idx + room + more, n) <= n
  {}

  lemma MoreMove(h: History, dir: Id, snap: Snapshot, idx: nat, next: nat, plan: seq<Move>)
    requires dir in h.s.snaps && h.s.snaps[dir] == snap && snap.generation != 0 && idx <= |snap.entries| &&
      Undisturbed(h, dir, plan)
    requires plan != [] && plan[0].More? && next == Least(idx + plan[0].room, |snap.entries|)
    ensures Collected(h, dir, Encode(snap.generation, idx), plan) ==
      snap.entries[idx..next] + Collected(h, dir, Encode(snap.generation, next), plan[1..])
  {
    var cookie := Encode(snap.generation, idx);
    var looked := Look(h.s, dir, cookie, plan[0].room);
    OneMore(h.s, dir, snap, idx, plan[0].room);
    assert Collected(h, dir, cookie, plan) == CollectedMore(h, dir, cookie, looked, plan[1..]);
  }

  /** Where the listing has got to after a plan from idx on. */
  function Reached(snap: Snapshot, idx: nat, plan: seq<Move>): nat { Least(idx + Total(plan), |snap.entries|) }

  lemma ReachedNext(snap: Snapshot, idx: nat, next: nat, plan: seq<Move>)
    requires idx <= |snap.entries| && plan != [] && plan[0].More? && next == Least(idx + plan[0].room, |snap.entries|)
    ensures idx <= next <= Reached(snap, next, plan[1..]) == Reached(snap, idx, plan) <= |snap.entries|
  {
    LeastTwice(idx, plan[0].room, Total(plan[1..]), |snap.entries|);
  }

  /** The part of the listing from idx to where the plan gets. */
  ghost predicate Delivers(h: History, dir: Id, snap: Snapshot, idx: nat, plan: seq<Move>)
    requires Undisturbed(h, dir, plan)
  {
    idx <= Reached(snap, idx, plan) <= |snap.entries| &&
    Collected(h, dir, Encode(snap.generation, idx), plan) == snap.entries[idx..Reached(snap, idx, plan)]
  }

  lemma DeliversMore(h: History, dir: Id, snap: Snapshot, idx: nat, next: nat, plan: seq<Move>)
    requires dir in h.s.snaps && h.s.snaps[dir] == snap && snap.generation != 0 && idx <= |snap.entries| &&
      Undisturbed(h, dir, plan)
    requires plan != [] && plan[0].More? && next == Least(idx + plan[0].room, |snap.entries|) &&
      Delivers(h, dir, snap, next, plan[1..])
    ensures Delivers(h, dir, snap, idx, plan)
  {
    MoreMove(h, dir, snap, idx, next, plan);
    ReachedNext(snap, idx, next, plan);
    var rest := Collected(h, dir, Encode(snap.generation, next), plan[1..]);
    Glue(snap.entries[idx..next], rest, snap.entries, idx, next, Reached(snap, idx, plan));
  }

  lemma DeliversMeanwhile(h: History, dir: Id, snap: Snapshot, idx: nat, plan: seq<Move>)
    requires Undisturbed(h, dir, plan) && plan != [] && plan[0].Meanwhile? && idx <= |snap.entries|
    requires Delivers(Apply(h, plan[0].step), dir, snap, idx, plan[1..])
    ensures Delivers(h, dir, snap, idx, plan)
  {}

  /** Whatever the packer takes each time, and whatever else goes on, every entry is reported once and in order. */
  lemma {:induction false} ResumesWithoutGap(h: History, dir: Id, snap: Snapshot, idx: nat, plan: seq<Move>)
    requires Inv(h) && dir in h.s.snaps && h.s.snaps[dir] == snap && idx <= |snap.entries| && Undisturbed(h, dir, plan)
    ensures Delivers(h, dir, snap, idx, plan)
    decreases |plan|
  {
    if plan == [] {
      assert snap.entries[idx..idx] == [];
    } else if plan[0].More? {
      var next := Least(idx + plan[0].room, |snap.entries|);
      ResumesWithoutGap(h, dir, snap, next, plan[1..]);
      DeliversMore(h, dir, snap, idx, next, plan);
    } else {
      SnapshotKeptExactly(h, plan[0].step, dir);
      StepKeeps(h, plan[0].step);
      ResumesWithoutGap(Apply(h, plan[0].step), dir, snap, idx, plan[1..]);
      DeliversMeanwhile(h, dir, snap, idx, plan);
    }
  }

  /** The report of an initial enumeration. */
  lemma InitialReport(h: History, first: Step, next: nat)
    requires Enabled(h, first) && first.Fetched? && first.current != []
    requires var c := h.fetching[first.task];
      c.cookie == INITIAL && c.room > 0 && next == Least(c.room, |first.current|)
    ensures var r := Reported(h, first).value;
      r.Listed? && r.packed != [] && EntriesOf(r.packed) == first.current[0..next] &&
      Behind(INITIAL, r.packed) == Encode(h.s.next, next)
  {
    PackedEntries(Snapshot(h.s.next, first.current), 0, h.fetching[first.task].room);
  }

  /** From an initial enumeration that accepts at least one entry on. */
  lemma ListsEverythingOnce(h: History, first: Step, plan: seq<Move>)
    requires Inv(h) && Enabled(h, first) && first.Fetched? && first.current != []
    requires var c := h.fetching[first.task];
      c.cookie == INITIAL && c.room > 0 && Undisturbed(Apply(h, first), c.dir, plan)
    ensures var c, r := h.fetching[first.task], Reported(h, first).value;
      && r.Listed? && r.packed != []
      && EntriesOf(r.packed) + Collected(Apply(h, first), c.dir, Behind(INITIAL, r.packed), plan)
         == first.current[0..Least(c.room + Total(plan), |first.current|)]
  {
    var c, t, snap := h.fetching[first.task], Apply(h, first), Snapshot(h.s.next, first.current);
    var next := Least(c.room, |first.current|);
    InitialReport(h, first, next);
    StepKeeps(h, first);
    ResumesWithoutGap(t, c.dir, snap, next, plan);
    FromTheStart(snap, c.room, next, plan, Collected(t, c.dir, Encode(h.s.next, next), plan));
  }

  lemma FromTheStart(snap: Snapshot, room: nat, next: nat, plan: seq<Move>, rest: seq<Entry>)
    requires next == Least(room, |snap.entries|) <= Reached(snap, next, plan) <= |snap.entries|
    requires rest == snap.entries[next..Reached(snap, next, plan)]
    ensures snap.entries[0..next] + rest == snap.entries[0..Least(room + Total(plan), |snap.entries|)]
  {
    LeastTwice(0, room, Total(plan), |snap.entries|);
    Glue(snap.entries[0..next], rest, snap.entries, 0, next, Reached(snap, next, plan));
  }
}
