/** rpclock, rpcunlock and rpc_9p of kext/socket.c: any number of threads, each of whose stretches between
    two lock operations is one step. msleep gives up the mutex and goes to sleep in one step; the wakeup
    comes after the mutex has been given up, in a step of its own. */
module SendLock {

  type Thread = nat

  /** Locked: holds the send lock and has not encoded yet. Sent: has sent its request and not received.
      Done: is through, well or badly, and about to unlock. Owing: has unlocked, and wakeup is still to come. */
  datatype Phase = Idle | Trying | Asleep | Locked | Sent | Done | Owing

  /** What goes over the socket. */
  datatype Item = Asked(asker: Thread) | Answered(asker: Thread)

  /** sendlock and waiting are the bits F_SENDLOCK and F_WAITSENDLOCK; a thread not in phases is idle. failed
      records that a reply has not been taken off the socket whole. */
  datatype State = State(sendlock: bool, waiting: bool, phases: map<Thread, Phase>, wire: seq<Item>, failed: bool)

  const INIT := State(false, false, map[], [], false)

  datatype Action =
    | Enter          // rpc_9p is called
    | TestLock       // the loop of rpclock comes to its test
    | EncodeFails
    | Send
    | SendFails      // nothing has been sent
    | Receive        // the reply has been taken off the socket whole, even if convM2S then refuses it
    | ReceiveFails   // it has not: an error, or a size that recvmsg_9p turns down, which it does without an error
    | Unlock
    | Wakeup
    | WakeEarly      // a sleeper wakes up unasked

  datatype Step = Step(t: Thread, a: Action)

  function PhaseOf(s: State, t: Thread): Phase { if t in s.phases then s.phases[t] else Idle }

  function Before(a: Action): Phase {
    match a
    case Enter => Idle
    case TestLock => Trying
    case EncodeFails => Locked
    case Send => Locked
    case SendFails => Locked
    case Receive => Sent
    case ReceiveFails => Sent
    case Unlock => Done
    case Wakeup => Owing
    case WakeEarly => Asleep
  }

  predicate Enabled(s: State, step: Step) { PhaseOf(s, step.t) == Before(step.a) }

  function Woken(p: Phase): Phase { if p == Asleep then Trying else p }

  function WakeAll(phases: map<Thread, Phase>): map<Thread, Phase> { map t | t in phases :: Woken(phases[t]) }

  function Apply(s: State, step: Step): State {
    var t := step.t;
    match step.a
    case Enter => s.(phases := s.phases[t := Trying])
    case TestLock =>
      if s.sendlock then s.(waiting := true, phases := s.phases[t := Asleep])
      else s.(sendlock := true, phases := s.phases[t := Locked])
    case EncodeFails => s.(phases := s.phases[t := Done])
    case Send => s.(phases := s.phases[t := Sent], wire := s.wire + [Asked(t)])
    case SendFails => s.(phases := s.phases[t := Done])
    case Receive => s.(phases := s.phases[t := Done], wire := s.wire + [Answered(t)])
    case ReceiveFails => s.(phases := s.phases[t := Done], failed := true)
    case Unlock => s.(sendlock := false, waiting := false, phases := s.phases[t := if s.waiting then Owing else Idle])
    case Wakeup => s.(phases := WakeAll(s.phases)[t := Idle])
    case WakeEarly => s.(phases := s.phases[t := Trying])
  }

  predicate Holds(p: Phase) { p == Locked || p == Sent || p == Done }

  ghost predicate HeldBy(s: State, t: Thread) { Holds(PhaseOf(s, t)) }
  ghost predicate OwedBy(s: State, t: Thread) { PhaseOf(s, t) == Owing }
  ghost predicate SleptBy(s: State, t: Thread) { PhaseOf(s, t) == Asleep }

  /** At most one thread holds the lock, and one does exactly when the bit is set. */
  ghost predicate Exclusive(s: State) {
    && (forall t, u :: HeldBy(s, t) && HeldBy(s, u) ==> t == u)
    && (s.sendlock <==> exists t :: HeldBy(s, t))
  }

  /** Whoever sleeps will be woken: both bits are set, or some thread still owes a wakeup. */
  ghost predicate NoLostWakeup(s: State) {
    && (s.waiting ==> s.sendlock)
    && ((exists t :: SleptBy(s, t)) ==> (s.sendlock && s.waiting) || exists t :: OwedBy(s, t))
  }

  predicate TakesTurn(wire: seq<Item>, k: nat)
    requires k < |wire|
  {
    if k % 2 == 0 then wire[k].Asked? else wire[k].Answered? && wire[k].asker == wire[k - 1].asker
  }

  /** Requests and replies take turns, each reply behind its own request. */
  predicate Alternates(wire: seq<Item>) {
    forall k :: 0 <= k < |wire| ==> TakesTurn(wire, k)
  }

  /** The reply outstanding, if there is one, is that of the thread in the middle of its exchange. */
  ghost predicate InStep(s: State) {
    && Alternates(s.wire)
    && (|s.wire| % 2 == 1 <==> exists t :: PhaseOf(s, t) == Sent)
    && (forall t :: PhaseOf(s, t) == Sent ==> s.wire != [] && s.wire[|s.wire| - 1] == Asked(t))
  }

  ghost predicate Inv(s: State) { Exclusive(s) && NoLostWakeup(s) && (!s.failed ==> InStep(s)) }

  // ----- one step -----

  lemma PhaseAfter(s: State, step: Step, u: Thread)
    requires Enabled(s, step)
    ensures PhaseOf(Apply(s, step), u) ==
      if u == step.t then PhaseOf(Apply(s, step), step.t) else if step.a.Wakeup? then Woken(PhaseOf(s, u))
        else PhaseOf(s, u)
  {}

  lemma ExclusiveKept(s: State, step: Step)
    requires Exclusive(s) && Enabled(s, step)
    ensures Exclusive(Apply(s, step))
  {
    var t := Apply(s, step);
    forall u
      ensures HeldBy(t, u) <==> (if u == step.t then Holds(PhaseOf(t, u)) else HeldBy(s, u))
    {
      PhaseAfter(s, step, u);
    }
    if step.a.TestLock? && !s.sendlock { assert HeldBy(t, step.t); }
    if Holds(Before(step.a)) {
      assert HeldBy(s, step.t);
      if !step.a.Unlock? { assert HeldBy(t, step.t); }
    }
    if s.sendlock && !Holds(Before(step.a)) {
      var h :| HeldBy(s, h);
      assert HeldBy(t, h);
    }
  }

  lemma WakeupKept(s: State, step: Step)
    requires Exclusive(s) && NoLostWakeup(s) && Enabled(s, step)
    ensures NoLostWakeup(Apply(s, step))
  {
    var t := Apply(s, step);
    forall u
      ensures PhaseOf(t, u) == if u == step.t then PhaseOf(t, u) else if step.a.Wakeup? then Woken(PhaseOf(s, u))
        else PhaseOf(s, u)
    {
      PhaseAfter(s, step, u);
    }
    if z :| SleptBy(t, z) {
      if step.a.Unlock? {
        if s.waiting {
          assert OwedBy(t, step.t);
        } else {
          assert SleptBy(s, z);
          var o :| OwedBy(s, o);
          assert OwedBy(t, o);
        }
      } else if !step.a.TestLock? || !s.sendlock {
        assert SleptBy(s, z);
        if !(s.sendlock && s.waiting) { var o :| OwedBy(s, o); assert OwedBy(t, o); }
      }
    }
    if Holds(Before(step.a)) { assert HeldBy(s, step.t); }
  }

  lemma InStepKept(s: State, step: Step)
    requires Exclusive(s) && InStep(s) && Enabled(s, step) && !step.a.ReceiveFails?
    ensures InStep(Apply(s, step))
  {
    var t := Apply(s, step);
    forall u ensures PhaseOf(t, u) == Sent <==> (if u == step.t then PhaseOf(t, u) == Sent else PhaseOf(s, u) == Sent) {
      PhaseAfter(s, step, u);
    }
    if Holds(Before(step.a)) { assert HeldBy(s, step.t); }
    match step.a
    case Send =>
      SentNone(s, step.t);
      assert PhaseOf(t, step.t) == Sent;
      AlternatesMore(s.wire, Asked(step.t));
    case Receive =>
      assert PhaseOf(s, step.t) == Sent;
      SentOnly(s, step.t);
      AlternatesMore(s.wire, Answered(step.t));
    case ReceiveFails =>
    case _ =>
      assert forall u :: PhaseOf(t, u) == Sent <==> PhaseOf(s, u) == Sent;
      assert (exists u :: PhaseOf(t, u) == Sent) <==> exists u :: PhaseOf(s, u) == Sent;
  }

  lemma AlternatesMore(wire: seq<Item>, x: Item)
    requires Alternates(wire) && (|wire| % 2 == 0 ==> x.Asked?)
    requires |wire| % 2 == 1 ==> x.Answered? && x.asker == wire[|wire| - 1].asker
    ensures Alternates(wire + [x])
  {
    var more := wire + [x];
    forall k | 0 <= k < |more| ensures TakesTurn(more, k) {
      assert k < |wire| ==> TakesTurn(wire, k);
      assert k > 0 ==> more[k - 1] == wire[k - 1];
      if k < |wire| { assert more[k] == wire[k]; } else { assert more[k] == x; }
    }
  }

  lemma SentNone(s: State, t: Thread)
    requires Exclusive(s) && PhaseOf(s, t) == Locked
    ensures forall u :: PhaseOf(s, u) != Sent
  {
    assert HeldBy(s, t);
    forall u ensures PhaseOf(s, u) != Sent { assert HeldBy(s, u) ==> u == t; }
  }

  lemma SentOnly(s: State, t: Thread)
    requires Exclusive(s) && PhaseOf(s, t) == Sent
    ensures forall u :: PhaseOf(s, u) == Sent ==> u == t
  {
    assert HeldBy(s, t);
    forall u ensures PhaseOf(s, u) == Sent ==> u == t { assert HeldBy(s, u) ==> u == t; }
  }

  lemma StepKeeps(s: State, step: Step)
    requires Inv(s) && Enabled(s, step)
    ensures Inv(Apply(s, step))
  {
    ExclusiveKept(s, step);
    WakeupKept(s, step);
    if !Apply(s, step).failed { InStepKept(s, step); }
  }

  // ----- whole runs -----

  function Run(s: State, steps: seq<Step>): State
    decreases |steps|
  {
    if steps == [] then s else Run(Apply(s, steps[0]), steps[1..])
  }

  predicate AllEnabled(s: State, steps: seq<Step>)
    decreases |steps|
  {
    steps == [] || (Enabled(s, steps[0]) && AllEnabled(Apply(s, steps[0]), steps[1..]))
  }

  /** In every interleaving of any number of threads: one thread at a time has the lock from encoding to the
      end of the reply, nobody sleeps with no wakeup to come, and until a reply is not taken off whole requests
      and replies alternate on the socket. */
  lemma {:induction false} AllRuns(s: State, steps: seq<Step>)
    requires Inv(s) && AllEnabled(s, steps)
    ensures Inv(Run(s, steps))
    ensures !Run(s, steps).failed ==> Alternates(Run(s, steps).wire)
    decreases |steps|
  {
    if steps != [] {
      StepKeeps(s, steps[0]);
      AllRuns(Apply(s, steps[0]), steps[1..]);
    }
  }

  lemma Initially()
    ensures Inv(INIT)
  {
    assert forall t :: PhaseOf(INIT, t) == Idle;
  }

  // ----- who gets the lock -----

  /** A thread that tests gets the lock if and only if nobody has it; otherwise its wish is left and it sleeps. */
  lemma TestTakes(s: State, t: Thread)
    requires Exclusive(s) && Enabled(s, Step(t, TestLock))
    ensures var s' := Apply(s, Step(t, TestLock));
      if exists u :: HeldBy(s, u) then SleptBy(s', t) && s'.waiting && s'.sendlock else HeldBy(s', t) && s'.sendlock
  {}

  /** A thread that unlocks owes a wakeup if and only if somebody has left a wish; either way the lock is free. */
  lemma UnlockFrees(s: State, t: Thread)
    requires Exclusive(s) && Enabled(s, Step(t, Unlock))
    ensures var s' := Apply(s, Step(t, Unlock));
      (OwedBy(s', t) <==> s.waiting) && !s'.waiting && !s'.sendlock && forall u :: !HeldBy(s', u)
  {
    ExclusiveKept(s, Step(t, Unlock));
  }

  // ----- no missed wakeup -----

  /** u owes a wakeup, or will when it unlocks. */
  ghost predicate Awakener(s: State, u: Thread) { OwedBy(s, u) || (HeldBy(s, u) && s.waiting) }

  /** How many steps it is away from its wakeup, at most. */
  function StepsLeft(p: Phase): nat {
    match p
    case Locked => 4
    case Sent => 3
    case Done => 2
    case Owing => 1
    case _ => 0
  }

  function TakenBy(u: Thread, steps: seq<Step>): nat
    decreases |steps|
  {
    if steps == [] then 0 else (if steps[0].t == u then 1 else 0) + TakenBy(u, steps[1..])
  }

  /** Some time in the run t is awake again. */
  ghost predicate WakesWithin(s: State, t: Thread, steps: seq<Step>)
    decreases |steps|
  {
    !SleptBy(s, t) || (steps != [] && WakesWithin(Apply(s, steps[0]), t, steps[1..]))
  }

  /** While anybody sleeps somebody else is on the way to a wakeup, and nothing keeps it from its next step. */
  lemma SleepersWaitForSomeone(s: State, t: Thread)
    requires Inv(s) && SleptBy(s, t)
    ensures exists u :: u != t && Awakener(s, u) && CanStep(s, u)
  {
    if s.sendlock && s.waiting {
      var u :| HeldBy(s, u);
      AwakenerSteps(s, u);
      assert u != t && Awakener(s, u);
    } else {
      var u :| OwedBy(s, u);
      AwakenerSteps(s, u);
      assert u != t && Awakener(s, u);
    }
  }

  ghost predicate CanStep(s: State, u: Thread) { exists a :: Enabled(s, Step(u, a)) }

  lemma AwakenerSteps(s: State, u: Thread)
    requires Awakener(s, u)
    ensures CanStep(s, u)
  {
    var p := PhaseOf(s, u);
    assert Enabled(s, Step(u, if p == Locked then Send else if p == Sent then Receive else if p == Done then Unlock
                              else Wakeup));
  }

  /** The wakeup reaches every sleeper. */
  lemma WakeupReachesAll(s: State, t: Thread, u: Thread)
    requires OwedBy(s, t)
    ensures !SleptBy(Apply(s, Step(t, Wakeup)), u)
  {
    PhaseAfter(s, Step(t, Wakeup), u);
  }

  /** A step of the awakener wakes the sleeper or brings the wakeup nearer; a step of another thread does not put
      it off. */
  lemma OneStepNearer(s: State, step: Step, t: Thread, u: Thread)
    requires Exclusive(s) && Enabled(s, step) && SleptBy(s, t) && Awakener(s, u)
    ensures var s' := Apply(s, step);
      !SleptBy(s', t) ||
      (Awakener(s', u) && StepsLeft(PhaseOf(s', u)) + TakenBy(u, [step]) <= StepsLeft(PhaseOf(s, u)))
  {
    assert TakenBy(u, [step]) == if step.t == u then 1 else 0;
    if step.a.Wakeup? { WakeupReachesAll(s, step.t, t); }
    if step.t != u {
      PhaseAfter(s, step, u);
      if step.a.Unlock? { assert HeldBy(s, step.t); }
    }
  }

  /** In every run in which the thread on the way to the wakeup takes its remaining steps, the sleeper wakes. */
  lemma {:induction false} SleepersWake(s: State, t: Thread, u: Thread, steps: seq<Step>)
    requires Inv(s) && AllEnabled(s, steps) && SleptBy(s, t) && Awakener(s, u)
    requires TakenBy(u, steps) >= StepsLeft(PhaseOf(s, u))
    ensures WakesWithin(s, t, steps)
    decreases |steps|
  {
    var s' := Apply(s, steps[0]);
    OneStepNearer(s, steps[0], t, u);
    StepKeeps(s, steps[0]);
    if SleptBy(s', t) { SleepersWake(s', t, u, steps[1..]); }
  }

  const FAILING := [Step(1, Enter), Step(1, TestLock), Step(1, Send), Step(1, ReceiveFails), Step(1, Unlock),
                    Step(2, Enter), Step(2, TestLock), Step(2, Send)]

  /** After a reply that was not taken off whole the next request follows a request. */
  lemma FailureEndsAlternation()
    ensures AllEnabled(INIT, FAILING) && Run(INIT, FAILING).wire == [Asked(1), Asked(2)] &&
      !Alternates(Run(INIT, FAILING).wire)
  {
    var s1 := Apply(INIT, FAILING[0]);
    var s2 := Apply(s1, FAILING[1]);
    var s3 := Apply(s2, FAILING[2]);
    var s4 := Apply(s3, FAILING[3]);
    var s5 := Apply(s4, FAILING[4]);
    var s6 := Apply(s5, FAILING[5]);
    var s7 := Apply(s6, FAILING[6]);
    var s8 := Apply(s7, FAILING[7]);
    OneStep(s7, FAILING, 7);
    OneStep(s6, FAILING, 6);
    OneStep(s5, FAILING, 5);
    OneStep(s4, FAILING, 4);
    OneStep(s3, FAILING, 3);
    OneStep(s2, FAILING, 2);
    OneStep(s1, FAILING, 1);
    OneStep(INIT, FAILING, 0);
    assert FAILING[0..] == FAILING && FAILING[8..] == [];
    var w := Run(INIT, FAILING).wire;
    assert w == [Asked(1), Asked(2)] && !TakesTurn(w, 1);
  }

  lemma OneStep(s: State, steps: seq<Step>, k: nat)
    requires k < |steps| && Enabled(s, steps[k]) && AllEnabled(Apply(s, steps[k]), steps[k + 1..])
    ensures AllEnabled(s, steps[k..]) && Run(s, steps[k..]) == Run(Apply(s, steps[k]), steps[k + 1..])
  {
    assert steps[k..][0] == steps[k] && steps[k..][1..] == steps[k + 1..];
  }

  // ----- when exactly alternation ends -----

  predicate SendIn(steps: seq<Step>) { exists j :: 0 <= j < |steps| && steps[j].a.Send? }

  /** Some request is sent after a receive has failed. */
  predicate SendAfterFailure(steps: seq<Step>) {
    exists i, j :: 0 <= i < j < |steps| && steps[i].a.ReceiveFails? && steps[j].a.Send?
  }

  lemma SendInFirst(steps: seq<Step>)
    requires steps != []
    ensures SendIn(steps) <==> steps[0].a.Send? || SendIn(steps[1..])
  {
    if j :| 0 <= j < |steps| && steps[j].a.Send? {
      if j > 0 { assert steps[1..][j - 1].a.Send?; }
    }
    if j :| 0 <= j < |steps[1..]| && steps[1..][j].a.Send? { assert steps[j + 1].a.Send?; }
  }

  lemma FailureFirst(steps: seq<Step>)
    requires steps != []
    ensures SendAfterFailure(steps) <==>
      (steps[0].a.ReceiveFails? && SendIn(steps[1..])) || SendAfterFailure(steps[1..])
  {
    var rest := steps[1..];
    if i, j :| 0 <= i < j < |steps| && steps[i].a.ReceiveFails? && steps[j].a.Send? {
      assert rest[j - 1].a.Send?;
      if i > 0 { assert rest[i - 1].a.ReceiveFails?; }
    }
    if steps[0].a.ReceiveFails? && SendIn(rest) {
      var j :| 0 <= j < |rest| && rest[j].a.Send?;
      assert steps[0].a.ReceiveFails? && steps[j + 1].a.Send?;
    }
    if i, j :| 0 <= i < j < |rest| && rest[i].a.ReceiveFails? && rest[j].a.Send? {
      assert steps[i + 1].a.ReceiveFails? && steps[j + 1].a.Send?;
    }
  }

  /** What has gone over the socket stays. */
  lemma {:induction false} WireGrows(s: State, steps: seq<Step>)
    requires AllEnabled(s, steps)
    ensures s.wire <= Run(s, steps).wire
    decreases |steps|
  {
    if steps != [] { WireGrows(Apply(s, steps[0]), steps[1..]); }
  }

  lemma PrefixAlternates(wire: seq<Item>, more: seq<Item>)
    requires wire <= more && Alternates(more)
    ensures Alternates(wire)
  {
    forall k | 0 <= k < |wire| ensures TakesTurn(wire, k) { assert TakesTurn(more, k); }
  }

  /** A reply is outstanding, and nobody is there to receive it. */
  ghost predicate Abandoned(s: State) {
    Alternates(s.wire) && |s.wire| % 2 == 1 && forall t :: PhaseOf(s, t) != Sent
  }

  lemma AbandonedKept(s: State, step: Step)
    requires Abandoned(s) && Enabled(s, step)
    ensures if step.a.Send? then !Alternates(Apply(s, step).wire) else Abandoned(Apply(s, step))
  {
    var t := Apply(s, step);
    if step.a.Send? {
      assert !TakesTurn(t.wire, |s.wire|);
    } else {
      forall u ensures PhaseOf(t, u) != Sent { PhaseAfter(s, step, u); }
    }
  }

  lemma {:induction false} AfterFailure(s: State, steps: seq<Step>)
    requires Abandoned(s) && AllEnabled(s, steps)
    ensures Alternates(Run(s, steps).wire) <==> !SendIn(steps)
    decreases |steps|
  {
    if steps != [] {
      var t := Apply(s, steps[0]);
      AbandonedKept(s, steps[0]);
      SendInFirst(steps);
      if steps[0].a.Send? {
        WireGrows(t, steps[1..]);
        if Alternates(Run(t, steps[1..]).wire) { PrefixAlternates(t.wire, Run(t, steps[1..]).wire); }
      } else {
        AfterFailure(t, steps[1..]);
      }
    }
  }

  lemma FailureAbandons(s: State, step: Step)
    requires Exclusive(s) && InStep(s) && Enabled(s, step) && step.a.ReceiveFails?
    ensures Abandoned(Apply(s, step))
  {
    SentOnly(s, step.t);
    assert PhaseOf(s, step.t) == Sent;
    forall u ensures PhaseOf(Apply(s, step), u) != Sent { PhaseAfter(s, step, u); }
  }

  /** Requests and replies alternate in a run if and only if no request is sent after a reply that was not taken
      off whole. A send that fails with nothing sent does no harm, nor does a failed receive with nothing sent
      behind it, nor a reply that is taken off and refused. */
  lemma {:induction false} AlternatesExactly(s: State, steps: seq<Step>)
    requires Exclusive(s) && InStep(s) && AllEnabled(s, steps)
    ensures Alternates(Run(s, steps).wire) <==> !SendAfterFailure(steps)
    decreases |steps|
  {
    if steps != [] {
      var t := Apply(s, steps[0]);
      FailureFirst(steps);
      if steps[0].a.ReceiveFails? {
        FailureAbandons(s, steps[0]);
        AfterFailure(t, steps[1..]);
        if SendAfterFailure(steps[1..]) { SendAmong(steps[1..]); }
      } else {
        ExclusiveKept(s, steps[0]);
        InStepKept(s, steps[0]);
        AlternatesExactly(t, steps[1..]);
      }
    }
  }

  lemma SendAmong(steps: seq<Step>)
    requires SendAfterFailure(steps)
    ensures SendIn(steps)
  {
    var i, j :| 0 <= i < j < |steps| && steps[i].a.ReceiveFails? && steps[j].a.Send?;
    assert steps[j].a.Send?;
  }

  // ----- the two flag words under the mutex -----

  class Mount {
    var sendlock: bool
    var waiting: bool

    /** One round of rpclock's loop: the lock is taken, or the wish for it left behind before going to sleep. */
    method TestAndSet() returns (taken: bool)
      modifies this
      ensures forall s: State, t: Thread :: s.sendlock == old(sendlock) && s.waiting == old(waiting) ==>
        var s' := Apply(s, Step(t, TestLock));
        s'.sendlock == sendlock && s'.waiting == waiting && (PhaseOf(s', t) == Locked <==> taken)
    {
      if sendlock {
        waiting := true;
        return false;
      }
      sendlock := true;
      return true;
    }

    /** rpcunlock up to the wakeup. */
    method ClearFlags() returns (wake: bool)
      requires sendlock
      modifies this
      ensures forall s: State, t: Thread :: s.sendlock == old(sendlock) && s.waiting == old(waiting) ==>
        var s' := Apply(s, Step(t, Unlock));
        s'.sendlock == sendlock && s'.waiting == waiting && (PhaseOf(s', t) == Owing <==> wake)
    {
      wake := false;
      sendlock := false;
      if waiting {
        waiting := false;
        wake := true;
      }
    }
  }

  /** rpcunlock does not panic: whoever unlocks finds the bit set. */
  lemma UnlockFindsLock(s: State, t: Thread)
    requires Inv(s) && PhaseOf(s, t) == Done
    ensures s.sendlock
  {
    assert HeldBy(s, t);
  }
}
