/** The multiplexing actor of NinePAsyncClient.swift: requests take 16-bit tags from a counter that wraps,
    wait in a table under their tag, and are resumed by replies, errors, cancellations and failures in any
    order. Each actor-isolated stretch of code is one event. */
module AsyncClient {

  const WRAP := 0x1_0000
  const NOTAG := 0xFFFF

  type Tag = t: nat | t < WRAP

  /** request names the continuation: the count of tags handed out, without wrap-around, when it was made. */
  datatype Waiter = Waiter(expected: nat, request: nat)

  /** ConnectionLost is the error of the connection: ECONNRESET on a disconnect, or what made a message unreadable. */
  datatype Outcome = Body(body: nat) | ServerError | WrongType | Cancelled | ConnectionLost | SendFailed

  /** A received message, as far as the header decodes. */
  datatype Message = Malformed | Rerror(tag: Tag) | Reply(tag: Tag, typ: nat, body: nat)

  datatype Event =
    | Request(expected: nat, sent: bool)
    | Incoming(msg: Message)
    | Cancel(tag: Tag)
    | FailAll

  /** clock counts the values nextTag has gone through; nextTag is clock modulo 65536. issued, resumed and
      cause only record what happened: which requests were made, how each was resumed, and on whose account. */
  datatype State = State(clock: nat, inflight: map<Tag, Waiter>, issued: set<nat>, resumed: map<nat, Outcome>,
    cause: map<nat, nat>)

  const INIT := State(1, map[], {}, map[], map[])

  function TagOf(n: nat): Tag { n % WRAP }

  predicate Free(inflight: map<Tag, Waiter>, t: Tag) { t != NOTAG && t !in inflight }

  ghost predicate SomeFree(inflight: map<Tag, Waiter>) { exists t: Tag :: Free(inflight, t) }

  /** The first free tag from c on, looked for n times. */
  function Seek(inflight: map<Tag, Waiter>, c: nat, n: nat): nat
    decreases n
  {
    if n == 0 || Free(inflight, TagOf(c)) then c else Seek(inflight, c + 1, n - 1)
  }

  function Resume(s: State, w: Waiter, o: Outcome, about: nat): State {
    s.(resumed := s.resumed[w.request := o], cause := s.cause[w.request := about])
  }

  /** Taking an entry out of the table, if there is one, and resuming it. */
  function Settle(s: State, tag: Tag, o: Waiter -> Outcome, about: nat): State {
    if tag in s.inflight then Resume(s.(inflight := s.inflight - {tag}), s.inflight[tag], o(s.inflight[tag]), about)
      else s
  }

  /** The body goes to a waiter that expects the type. */
  function Answers(typ: nat, body: nat): Waiter -> Outcome {
    (w: Waiter) => if typ == w.expected then Body(body) else WrongType
  }

  function Requests(inflight: map<Tag, Waiter>): set<nat> { set t | t in inflight :: inflight[t].request }

  function LostFor(request: nat): Outcome { ConnectionLost }
  function AllLost(lost: set<nat>): map<nat, Outcome> { map r | r in lost :: LostFor(r) }
  function Themselves(lost: set<nat>): map<nat, nat> { map r | r in lost :: r }

  function FailedAll(s: State): State {
    var lost := Requests(s.inflight);
    s.(inflight := map[], resumed := s.resumed + AllLost(lost), cause := s.cause + Themselves(lost))
  }

  /** rpcAsync, when the search for a tag ends with the count at n. */
  function Requested(s: State, expected: nat, sent: bool, n: nat): State {
    var t := s.(clock := n + 1, issued := s.issued + {n});
    if sent then t.(inflight := s.inflight[TagOf(n) := Waiter(expected, n)])
      else Resume(t, Waiter(expected, n), SendFailed, n)
  }

  /** One event; about is the request that a reply or a cancellation is really meant for. */
  function Apply(s: State, e: Event, about: nat): State {
    match e
    case Request(expected, sent) => Requested(s, expected, sent, Seek(s.inflight, s.clock, WRAP))
    case Incoming(msg) =>
      (match msg
       case Malformed => FailedAll(s)
       case Rerror(tag) => Settle(s, tag, w => ServerError, about)
       case Reply(tag, typ, body) => Settle(s, tag, Answers(typ, body), about))
    case Cancel(tag) => Settle(s, tag, w => Cancelled, about)
    case FailAll => FailedAll(s)
  }

  // ----- what every event keeps -----

  /** Every entry is under its own request's tag, and no later request has had that tag. */
  ghost predicate Tagged(inflight: map<Tag, Waiter>, issued: set<nat>) {
    && (forall t :: t in inflight ==> inflight[t].request in issued && TagOf(inflight[t].request) == t)
    && (forall t, n :: t in inflight && n in issued && TagOf(n) == t ==> n <= inflight[t].request)
  }

  /** Every request is either pending, under exactly one tag, or has been resumed. */
  ghost predicate Inv(s: State) {
    && (forall n :: n in s.issued ==> n < s.clock && TagOf(n) != NOTAG)
    && Tagged(s.inflight, s.issued)
    && Requests(s.inflight) !! s.resumed.Keys
    && s.issued == Requests(s.inflight) + s.resumed.Keys
  }

  lemma {:induction false} SeekFinds(inflight: map<Tag, Waiter>, c: nat, n: nat, k: nat)
    requires k < n && Free(inflight, TagOf(c + k))
    ensures var r := Seek(inflight, c, n);
      && Free(inflight, TagOf(r)) && c <= r <= c + k
      && forall j :: c <= j < r ==> !Free(inflight, TagOf(j))
    decreases n
  {
    if !Free(inflight, TagOf(c)) { SeekFinds(inflight, c + 1, n - 1, k - 1); }
  }

  /** Within one wrap-around the counter comes to every tag, so the search ends whenever one is free. It
      never yields NOTAG or a tag in use, and passes over no tag it could have taken. */
  lemma Allocates(s: State)
    requires SomeFree(s.inflight)
    ensures var n := Seek(s.inflight, s.clock, WRAP);
      && Free(s.inflight, TagOf(n)) && s.clock <= n < s.clock + WRAP
      && forall j :: s.clock <= j < n ==> !Free(s.inflight, TagOf(j))
  {
    var t: Tag :| Free(s.inflight, t);
    var k, q := (t - s.clock) % WRAP, (t - s.clock) / WRAP;
    assert s.clock + k == t - WRAP * q;
    assert TagOf(s.clock + k) == t;
    SeekFinds(s.inflight, s.clock, WRAP, k);
  }

  /** Only a request needs a free tag; all else can happen at any time, with any tag in it. */
  ghost predicate Enabled(s: State, e: Event) { e.Request? ==> SomeFree(s.inflight) }

  lemma AddedRequest(inflight: map<Tag, Waiter>, w: Waiter)
    requires TagOf(w.request) !in inflight
    ensures Requests(inflight[TagOf(w.request) := w]) == Requests(inflight) + {w.request}
  {
    var t, more := TagOf(w.request), inflight[TagOf(w.request) := w];
    assert more[t].request == w.request;
    forall q | q in Requests(inflight) ensures q in Requests(more) {
      var u :| u in inflight && inflight[u].request == q;
      assert u in more && more[u].request == q;
    }
  }

  lemma TaggedMore(inflight: map<Tag, Waiter>, issued: set<nat>, clock: nat, w: Waiter)
    requires Tagged(inflight, issued) && TagOf(w.request) !in inflight && w.request >= clock
    requires forall n :: n in issued ==> n < clock
    ensures Tagged(inflight[TagOf(w.request) := w], issued + {w.request})
  {}

  lemma SentKeeps(s: State, expected: nat, n: nat)
    requires Inv(s) && n >= s.clock && Free(s.inflight, TagOf(n))
    ensures Inv(Requested(s, expected, true, n))
  {
    AddedRequest(s.inflight, Waiter(expected, n));
    TaggedMore(s.inflight, s.issued, s.clock, Waiter(expected, n));
    var s' := Requested(s, expected, true, n);
    assert s'.issued == Requests(s'.inflight) + s'.resumed.Keys;
  }

  lemma UnsentKeeps(s: State, expected: nat, n: nat)
    requires Inv(s) && n >= s.clock && Free(s.inflight, TagOf(n))
    ensures Inv(Requested(s, expected, false, n))
  {
    var s' := Requested(s, expected, false, n);
    assert s'.inflight == s.inflight && s'.issued == s.issued + {n};
    assert s'.resumed.Keys == s.resumed.Keys + {n};
    assert Tagged(s'.inflight, s'.issued);
  }

  lemma RemovedRequests(s: State, tag: Tag)
    requires Inv(s) && tag in s.inflight
    ensures Requests(s.inflight - {tag}) == Requests(s.inflight) - {s.inflight[tag].request}
    ensures s.inflight[tag].request in Requests(s.inflight) && s.inflight[tag].request !in s.resumed
  {
    var r, less := s.inflight[tag].request, s.inflight - {tag};
    assert r in Requests(s.inflight);
    forall t | t in less ensures less[t].request != r {
      assert TagOf(s.inflight[t].request) == t;
    }
    forall q | q in Requests(s.inflight) && q != r ensures q in Requests(less) {
      var t :| t in s.inflight && s.inflight[t].request == q;
      assert t in less;
    }
  }

  lemma SettleKeeps(s: State, tag: Tag, o: Waiter -> Outcome, about: nat)
    requires Inv(s)
    ensures Inv(Settle(s, tag, o, about))
  {
    if tag in s.inflight { RemovedRequests(s, tag); }
  }

  lemma FailedKeeps(s: State)
    requires Inv(s)
    ensures Inv(FailedAll(s))
  {
    var s' := FailedAll(s);
    assert Requests(s'.inflight) == {};
    assert s'.resumed.Keys == s.resumed.Keys + Requests(s.inflight);
  }

  lemma EventKeeps(s: State, e: Event, about: nat)
    requires Inv(s) && Enabled(s, e)
    ensures Inv(Apply(s, e, about))
  {
    match e
    case Request(expected, sent) =>
      Allocates(s);
      if sent {
        SentKeeps(s, expected, Seek(s.inflight, s.clock, WRAP));
      } else {
        UnsentKeeps(s, expected, Seek(s.inflight, s.clock, WRAP));
      }
    case Incoming(msg) =>
      match msg {
        case Malformed => FailedKeeps(s);
        case Rerror(tag) => SettleKeeps(s, tag, w => ServerError, about);
        case Reply(tag, typ, body) => SettleKeeps(s, tag, Answers(typ, body), about);
      }
    case Cancel(tag) => SettleKeeps(s, tag, w => Cancelled, about);
    case FailAll => FailedKeeps(s);
  }

  // ----- whole runs -----

  datatype Step = Step(e: Event, about: nat)

  function Run(s: State, steps: seq<Step>): State
    decreases |steps|
  {
    if steps == [] then s else Run(Apply(s, steps[0].e, steps[0].about), steps[1..])
  }

  ghost predicate AllEnabled(s: State, steps: seq<Step>)
    decreases |steps|
  {
    steps != [] ==> Enabled(s, steps[0].e) && AllEnabled(Apply(s, steps[0].e, steps[0].about), steps[1..])
  }

  /** Whatever was resumed stays resumed the way it was. */
  ghost predicate Extends(s: State, t: State) {
    && s.issued <= t.issued && s.clock <= t.clock
    && forall n :: n in s.resumed ==> n in t.resumed && t.resumed[n] == s.resumed[n]
  }

  lemma EventExtends(s: State, e: Event, about: nat)
    requires Inv(s) && Enabled(s, e)
    ensures Extends(s, Apply(s, e, about))
  {
    match e
    case Request(expected, sent) =>
      Allocates(s);
      assert s.issued == Requests(s.inflight) + s.resumed.Keys;
      assert Seek(s.inflight, s.clock, WRAP) !in s.issued;
    case Incoming(msg) =>
      if msg.Malformed? { LostExtends(s); } else if msg.tag in s.inflight { RemovedRequests(s, msg.tag); }
    case Cancel(tag) => if tag in s.inflight { RemovedRequests(s, tag); }
    case FailAll => LostExtends(s);
  }

  lemma LostExtends(s: State)
    requires Inv(s)
    ensures Extends(s, FailedAll(s))
  {
    forall n | n in s.resumed ensures n !in Requests(s.inflight) {}
  }

  /** Over every run: each request made is pending under exactly one tag, or has been resumed, once and for all. */
  lemma {:induction false} PendingOrResumedOnce(s: State, steps: seq<Step>)
    requires Inv(s) && AllEnabled(s, steps)
    ensures Inv(Run(s, steps)) && Extends(s, Run(s, steps))
    ensures forall n :: n in Run(s, steps).issued ==>
      (n in Run(s, steps).resumed) != (TagOf(n) in Run(s, steps).inflight &&
      Run(s, steps).inflight[TagOf(n)].request == n)
    decreases |steps|
  {
    if steps != [] {
      EventKeeps(s, steps[0].e, steps[0].about);
      EventExtends(s, steps[0].e, steps[0].about);
      PendingOrResumedOnce(Apply(s, steps[0].e, steps[0].about), steps[1..]);
    } else {
      forall n | n in s.issued
        ensures (n in s.resumed) != (TagOf(n) in s.inflight && s.inflight[TagOf(n)].request == n)
      {
        if n !in s.resumed { assert n in Requests(s.inflight); }
      }
    }
  }

  // ----- whose reply it is -----

  /** Replies, server errors and cancellations, which settle the request that is pending under a tag. */
  predicate Settles(e: Event) { e.Cancel? || (e.Incoming? && !e.msg.Malformed?) }

  function TagIn(e: Event): Tag
    requires Settles(e)
  {
    if e.Cancel? then e.tag else e.msg.tag
  }

  /** It carries the tag of the request it is about. */
  ghost predicate Echo(s: State, e: Event, about: nat) {
    Settles(e) ==> about in s.issued && TagIn(e) == TagOf(about)
  }

  /** The tag of the request has been handed out again, and its new holder is still pending. */
  predicate Reused(s: State, about: nat) {
    TagOf(about) in s.inflight && s.inflight[TagOf(about)].request > about
  }

  predicate Strays(s: State, e: Event, about: nat) { Settles(e) && Reused(s, about) }

  /** It comes before nextTag has gone round to the tag again. */
  ghost predicate Timely(s: State, e: Event, about: nat) {
    Echo(s, e, about) && (Settles(e) ==> s.clock <= about + WRAP)
  }

  ghost predicate AllEcho(s: State, steps: seq<Step>)
    decreases |steps|
  {
    steps != [] ==> Echo(s, steps[0].e, steps[0].about) && AllEcho(Apply(s, steps[0].e, steps[0].about), steps[1..])
  }

  ghost predicate AllTimely(s: State, steps: seq<Step>)
    decreases |steps|
  {
    steps != [] ==> Timely(s, steps[0].e, steps[0].about) && AllTimely(Apply(s, steps[0].e, steps[0].about), steps[1..])
  }

  /** Some reply, error or cancellation of the run comes while its tag is reused. */
  predicate SomeStrays(s: State, steps: seq<Step>)
    decreases |steps|
  {
    steps != [] && (Strays(s, steps[0].e, steps[0].about) ||
    SomeStrays(Apply(s, steps[0].e, steps[0].about), steps[1..]))
  }

  predicate Recorded(s: State) { s.cause.Keys == s.resumed.Keys }

  /** Every request was resumed on its own account. */
  ghost predicate OwnCauses(s: State) { Recorded(s) && forall n :: n in s.cause ==> s.cause[n] == n }

  /** What the causes of s say, those of t say too. */
  ghost predicate Remembers(s: State, t: State) {
    Recorded(t) && forall n :: n in s.cause ==> n in t.cause && t.cause[n] == s.cause[n]
  }

  lemma SameTag(m: nat, n: nat)
    requires m <= n < m + WRAP && TagOf(m) == TagOf(n)
    ensures m == n
  {
    var a, b := m / WRAP, n / WRAP;
    assert n - m == WRAP * (b - a);
  }

  /** Until the counter has come round, the tag leads to the request itself or to nobody. */
  lemma TagStillOwn(s: State, about: nat)
    requires Inv(s) && about in s.issued && s.clock <= about + WRAP
    ensures TagOf(about) in s.inflight ==> s.inflight[TagOf(about)].request == about
    ensures about in Requests(s.inflight) ==> TagOf(about) in s.inflight
    ensures !Reused(s, about)
  {
    if TagOf(about) in s.inflight {
      var n := s.inflight[TagOf(about)].request;
      SameTag(about, n);
    }
  }

  lemma SettledCauses(s: State, tag: Tag, o: Waiter -> Outcome, about: nat)
    requires Inv(s) && Recorded(s)
    ensures Remembers(s, Settle(s, tag, o, about))
    ensures OwnCauses(s) && about in s.issued && tag == TagOf(about) ==>
      (OwnCauses(Settle(s, tag, o, about)) <==> !Reused(s, about))
  {
    var t := Settle(s, tag, o, about);
    if tag in s.inflight {
      RemovedRequests(s, tag);
      assert s.inflight[tag].request in t.cause && t.cause[s.inflight[tag].request] == about;
    }
  }

  lemma LostCauses(s: State)
    requires Inv(s) && Recorded(s)
    ensures Remembers(s, FailedAll(s)) && (OwnCauses(s) ==> OwnCauses(FailedAll(s)))
  {
    var t := FailedAll(s);
    assert t.cause.Keys == s.cause.Keys + Requests(s.inflight) &&
      t.resumed.Keys == s.resumed.Keys + Requests(s.inflight);
    forall n | n in s.cause ensures n in t.cause && t.cause[n] == s.cause[n] { assert n in s.resumed; }
  }

  lemma RequestCauses(s: State, e: Event, about: nat)
    requires Inv(s) && Recorded(s) && Enabled(s, e) && e.Request?
    ensures Remembers(s, Apply(s, e, about)) && (OwnCauses(s) ==> OwnCauses(Apply(s, e, about)))
  {
    Allocates(s);
    assert Seek(s.inflight, s.clock, WRAP) !in s.issued;
  }

  /** A step leaves every request resumed on its own account if and only if it does not stray. */
  lemma CausesMove(s: State, e: Event, about: nat)
    requires Inv(s) && Recorded(s) && Enabled(s, e)
    ensures Remembers(s, Apply(s, e, about))
    ensures OwnCauses(s) && Echo(s, e, about) ==> (OwnCauses(Apply(s, e, about)) <==> !Strays(s, e, about))
  {
    match e
    case Request(expected, sent) => RequestCauses(s, e, about);
    case Incoming(msg) =>
      match msg {
        case Malformed => LostCauses(s);
        case Rerror(tag) => SettledCauses(s, tag, w => ServerError, about);
        case Reply(tag, typ, body) => SettledCauses(s, tag, Answers(typ, body), about);
      }
    case Cancel(tag) => SettledCauses(s, tag, w => Cancelled, about);
    case FailAll => LostCauses(s);
  }

  lemma {:induction false} CausesStay(s: State, steps: seq<Step>)
    requires Inv(s) && Recorded(s) && AllEnabled(s, steps)
    ensures Remembers(s, Run(s, steps))
    decreases |steps|
  {
    if steps != [] {
      EventKeeps(s, steps[0].e, steps[0].about);
      CausesMove(s, steps[0].e, steps[0].about);
      CausesStay(Apply(s, steps[0].e, steps[0].about), steps[1..]);
    }
  }

  /** Over every run in which replies and cancellations carry the tag of their own request: none reaches another
      request if and only if none comes while its tag has been handed out again to a request still pending. */
  lemma {:induction false} OwnRepliesExactly(s: State, steps: seq<Step>)
    requires Inv(s) && OwnCauses(s) && AllEnabled(s, steps) && AllEcho(s, steps)
    ensures OwnCauses(Run(s, steps)) <==> !SomeStrays(s, steps)
    decreases |steps|
  {
    if steps != [] {
      var t := Apply(s, steps[0].e, steps[0].about);
      EventKeeps(s, steps[0].e, steps[0].about);
      CausesMove(s, steps[0].e, steps[0].about);
      if OwnCauses(t) {
        OwnRepliesExactly(t, steps[1..]);
      } else {
        CausesStay(t, steps[1..]);
      }
    }
  }

  lemma {:induction false} TimelyNeverStrays(s: State, steps: seq<Step>)
    requires Inv(s) && AllEnabled(s, steps) && AllTimely(s, steps)
    ensures AllEcho(s, steps) && !SomeStrays(s, steps)
    decreases |steps|
  {
    if steps != [] {
      if Settles(steps[0].e) { TagStillOwn(s, steps[0].about); }
      EventKeeps(s, steps[0].e, steps[0].about);
      TimelyNeverStrays(Apply(s, steps[0].e, steps[0].about), steps[1..]);
    }
  }

  /** In particular, none does in a run in which late replies and late cancellations arrive before the wrap-around. */
  lemma RepliesReachTheirOwn(s: State, steps: seq<Step>)
    requires Inv(s) && OwnCauses(s) && AllEnabled(s, steps) && AllTimely(s, steps)
    ensures OwnCauses(Run(s, steps))
  {
    TimelyNeverStrays(s, steps);
    OwnRepliesExactly(s, steps);
  }

  /** And a reply to a pending request does reach it. */
  lemma ReplyArrives(s: State, about: nat, typ: nat, body: nat)
    requires Inv(s) && about in Requests(s.inflight) && s.clock <= about + WRAP
    ensures var t := Apply(s, Incoming(Reply(TagOf(about), typ, body)), about);
      && about in t.resumed && about !in Requests(t.inflight)
      && t.resumed[about] == (if typ == s.inflight[TagOf(about)].expected then Body(body) else WrongType)
  {
    TagStillOwn(s, about);
    RemovedRequests(s, TagOf(about));
  }

  // ----- how the others are resumed -----

  /** Nobody but r is touched: the other requests stay pending under their tags, and what was resumed stays so. */
  ghost predicate OnlyMoves(s: State, t: State, r: nat) {
    && (forall q: Tag :: q in s.inflight && s.inflight[q].request != r ==>
        q in t.inflight && t.inflight[q] == s.inflight[q])
    && (forall q: Tag :: q in t.inflight && t.inflight[q].request != r ==>
        q in s.inflight && s.inflight[q] == t.inflight[q])
    && (forall n :: n != r ==>
        (n in t.resumed <==> n in s.resumed) && (n in s.resumed ==> t.resumed[n] == s.resumed[n]))
  }

  /** An error or a cancellation takes the request under its tag out of the table, resumed with an error of its
      kind, and touches no other. */
  lemma ErrorArrives(s: State, tag: Tag, about: nat)
    requires Inv(s) && tag in s.inflight
    ensures var r := s.inflight[tag].request;
      var t, u := Apply(s, Incoming(Rerror(tag)), about), Apply(s, Cancel(tag), about);
      && tag !in t.inflight && r in t.resumed && t.resumed[r] == ServerError && OnlyMoves(s, t, r)
      && tag !in u.inflight && r in u.resumed && u.resumed[r] == Cancelled && OnlyMoves(s, u, r)
  {}

  /** Where nobody is pending under the tag nothing happens. */
  lemma NobodyThere(s: State, tag: Tag, typ: nat, body: nat, about: nat)
    requires tag !in s.inflight
    ensures Apply(s, Incoming(Reply(tag, typ, body)), about) == Apply(s, Incoming(Rerror(tag)), about) ==
      Apply(s, Cancel(tag), about) == s
  {}

  /** After a disconnect, or a message that does not decode, nobody is pending, and everybody who was has been
      resumed with the error of the connection. */
  lemma EverybodyResumed(s: State, about: nat)
    requires Inv(s)
    ensures var t := Apply(s, FailAll, about);
      && t == Apply(s, Incoming(Malformed), about) && t.inflight == map[]
      && (forall n :: n in Requests(s.inflight) ==> n in t.resumed && t.resumed[n] == ConnectionLost)
      && (forall n :: n !in Requests(s.inflight) ==>
        (n in t.resumed <==> n in s.resumed) && (n in s.resumed ==> t.resumed[n] == s.resumed[n]))
  {}

  /** A request that is sent waits under its tag for the type it expects; one that is not is resumed at once. */
  lemma RequestWaits(s: State, expected: nat, about: nat)
    requires Inv(s) && SomeFree(s.inflight)
    ensures var n := Seek(s.inflight, s.clock, WRAP);
      var t, u := Apply(s, Request(expected, true), about), Apply(s, Request(expected, false), about);
      && n !in s.issued && n in t.issued && n in u.issued
      && TagOf(n) in t.inflight && t.inflight[TagOf(n)] == Waiter(expected, n) && OnlyMoves(s, t, n)
      && u.inflight == s.inflight && n in u.resumed && u.resumed[n] == SendFailed && OnlyMoves(s, u, n)
  {
    Allocates(s);
    assert s.issued == Requests(s.inflight) + s.resumed.Keys;
  }

  // ----- one count later a reply can reach a stranger -----

  const UNSENT := Step(Request(0, false), 0)

  /** The count after k requests that could not be sent, from count 2; NOTAG is passed over. */
  function CountAfter(k: nat): nat { if k + 2 <= NOTAG then k + 2 else k + 3 }

  lemma UnsentStep(s: State, n: nat)
    requires s.inflight == map[] && n < WRAP - 2 && s.clock == CountAfter(n)
    ensures var t := Apply(s, UNSENT.e, 0); t.inflight == map[] && t.clock == CountAfter(n + 1)
    ensures Enabled(s, UNSENT.e) && Timely(s, UNSENT.e, 0)
  {
    SeekEmpty(s.clock);
    assert Free(s.inflight, 0);
  }

  lemma {:induction false} UnsentRun(s: State, steps: seq<Step>, n: nat)
    requires s.inflight == map[] && n + |steps| < WRAP - 1 && s.clock == CountAfter(n)
    requires forall k :: 0 <= k < |steps| ==> steps[k] == UNSENT
    ensures AllEnabled(s, steps) && AllTimely(s, steps)
    ensures var t := Run(s, steps); t.inflight == map[] && t.clock == CountAfter(n + |steps|)
    decreases |steps|
  {
    if steps != [] {
      UnsentStep(s, n);
      UnsentRun(Apply(s, UNSENT.e, 0), steps[1..], n + 1);
    }
  }

  lemma SeekEmpty(c: nat)
    ensures Seek(map[], c, WRAP) == if TagOf(c) != NOTAG then c else c + 1
  {
    assert TagOf(c) == NOTAG ==> TagOf(c + 1) == 0;
  }

  lemma {:induction false} RunConcat(s: State, a: seq<Step>, b: seq<Step>)
    ensures Run(s, a + b) == Run(Run(s, a), b)
    ensures AllEnabled(s, a) && AllEnabled(Run(s, a), b) ==> AllEnabled(s, a + b)
    ensures AllTimely(s, a) && AllTimely(Run(s, a), b) ==> AllTimely(s, a + b)
    decreases |a|
  {
    if a == [] {
      assert a + b == b;
    } else {
      assert (a + b)[1..] == a[1..] + b && (a + b)[0] == a[0];
      RunConcat(Apply(s, a[0].e, a[0].about), a[1..], b);
    }
  }

  lemma Abandoned() returns (steps: seq<Step>, s: State)
    ensures AllEnabled(INIT, steps) && AllTimely(INIT, steps) && s == Run(INIT, steps) && Inv(s)
    ensures s.inflight == map[] && s.clock == 2 && 1 in s.issued
  {
    steps := [Step(Request(0, true), 0), Step(Cancel(1), 1)];
    var s1 := Apply(INIT, steps[0].e, 0);
    SeekEmpty(1);
    assert Free(INIT.inflight, 0);
    assert s1.inflight == map[1 := Waiter(0, 1)];
    assert steps[1..] == [Step(Cancel(1), 1)] && steps[1..][1..] == [];
    s := Apply(s1, Cancel(1), 1);
    assert s.inflight == map[];
    PendingOrResumedOnce(INIT, steps);
  }

  lemma GoneRound(s: State) returns (steps: seq<Step>, t: State)
    requires s.inflight == map[] && s.clock == 2
    ensures AllEnabled(s, steps) && AllTimely(s, steps) && t == Run(s, steps)
    ensures t.inflight == map[1 := Waiter(0, WRAP + 1)] && t.clock == WRAP + 2
  {
    var many := seq(WRAP - 2, _ => UNSENT);
    UnsentRun(s, many, 0);
    var u := Run(s, many);
    var last := [Step(Request(0, true), 0)];
    assert last[1..] == [];
    SeekEmpty(u.clock);
    assert Free(u.inflight, 0);
    RunConcat(s, many, last);
    steps := many + last;
    t := Apply(u, last[0].e, 0);
    assert t.inflight == map[1 := Waiter(0, WRAP + 1)];
  }

  /** A request is made and cancelled; 65534 requests later its tag is given out again; the reply to the
      cancelled request, one count too late, is delivered to the new one. Up to then nothing was late. */
  lemma LateReplyMisdelivered() returns (steps: seq<Step>, s: State, late: Step)
    ensures AllEnabled(INIT, steps) && AllTimely(INIT, steps) && s == Run(INIT, steps) && Inv(s) && OwnCauses(s)
    ensures late.e == Incoming(Reply(TagOf(late.about), 0, 7)) && late.about in s.issued &&
      s.clock == late.about + WRAP + 1 && Strays(s, late.e, late.about)
    ensures var t := Apply(s, late.e, late.about);
      exists n :: n != late.about && n in Requests(s.inflight) && n in t.resumed && t.resumed[n] == Body(7)
  {
    var first, s0 := Abandoned();
    var rest;
    rest, s := GoneRound(s0);
    RunConcat(INIT, first, rest);
    PendingOrResumedOnce(s0, rest);
    steps := first + rest;
    RepliesReachTheirOwn(INIT, steps);
    late := Step(Incoming(Reply(1, 0, 7)), 1);
    var t := Apply(s, late.e, 1);
    assert s.inflight[1].request == WRAP + 1;
    assert WRAP + 1 in Requests(s.inflight) && t.resumed[WRAP + 1] == Body(7);
  }

  // ----- the actor -----

  function Expected(waiting: map<Tag, Waiter>): map<Tag, nat> { map t | t in waiting :: waiting[t].expected }

  lemma ExpectedLess(waiting: map<Tag, Waiter>, tag: Tag)
    ensures Expected(waiting - {tag}) == Expected(waiting) - {tag}
  {}

  lemma NextTag(c: nat)
    ensures TagOf(c + 1) == if TagOf(c) == WRAP - 1 then 0 else TagOf(c) + 1
  {}

  /** The actor's fields, and beside them, for reasoning only, the log of what its methods have done: the same
      table with the continuations in it, and the history. */
  class Client {
    var nextTag: Tag
    var inflight: map<Tag, nat>
    ghost var log: State

    ghost predicate Valid()
      reads this
    {
      nextTag == TagOf(log.clock) && inflight == Expected(log.inflight)
    }

    constructor ()
      ensures Valid() && log == INIT
    {
      nextTag, inflight, log := 1, map[], INIT;
    }

    method AllocTag() returns (t: Tag)
      requires Valid() && SomeFree(log.inflight)
      modifies this
      ensures Valid() && inflight == old(inflight)
      ensures var n := old(Seek(log.inflight, log.clock, WRAP)); t == TagOf(n) && log == old(log).(clock := n + 1)
    {
      Allocates(log);
      ghost var was, n := log, Seek(log.inflight, log.clock, WRAP);
      ghost var c := log.clock;
      while true
        invariant was.clock <= c <= n && nextTag == TagOf(c) && inflight == Expected(was.inflight)
        decreases n - c
      {
        NextTag(c);
        t := nextTag;
        if nextTag == WRAP - 1 { nextTag := 0; } else { nextTag := nextTag + 1; }
        c := c + 1;
        if t != NOTAG && t !in inflight { break; }
      }
      assert c - 1 == n;
      log := was.(clock := c);
    }

    method RpcAsync(expected: nat, sent: bool)
      requires Valid() && SomeFree(log.inflight)
      modifies this
      ensures Valid() && forall about :: log == Apply(old(log), Request(expected, sent), about)
    {
      ghost var s := log;
      Allocates(s);
      var tag := AllocTag();
      ghost var n := log.clock - 1;
      inflight := inflight[tag := expected];
      log := Requested(s, expected, true, n);
      if !sent {
        inflight := inflight - {tag};
        log := Requested(s, expected, false, n);
        assert s.inflight[tag := Waiter(expected, n)] - {tag} == s.inflight;
      }
    }

    /** inflight.removeValue(forKey: tag), and resuming what was there. */
    method RemoveAndResume(tag: Tag, ghost o: Waiter -> Outcome, ghost about: nat)
      requires Valid()
      modifies this
      ensures Valid() && log == Settle(old(log), tag, o, about)
    {
      if tag in inflight { inflight := inflight - {tag}; }
      log := Settle(log, tag, o, about);
    }

    method FailAllInflight()
      requires Valid()
      modifies this
      ensures Valid() && log == FailedAll(old(log))
    {
      ghost var s := log;
      var todo := inflight.Keys;
      NoneLost(s);
      while todo != {}
        invariant Valid() && log == FailedSome(s, todo) && todo <= s.inflight.Keys
        decreases todo
      {
        var tag :| tag in todo;
        FailedOne(s, todo, tag);
        ExpectedLess(log.inflight, tag);
        ghost var w := log.inflight[tag];
        todo := todo - {tag};
        inflight := inflight - {tag};
        log := Resume(log.(inflight := log.inflight - {tag}), w, ConnectionLost, w.request);
      }
    }

    method HandleIncoming(msg: Message, ghost about: nat)
      requires Valid()
      modifies this
      ensures Valid() && log == Apply(old(log), Incoming(msg), about)
    {
      match msg
      case Malformed => FailAllInflight();
      case Rerror(tag) => RemoveAndResume(tag, w => ServerError, about);
      case Reply(tag, typ, body) =>
        RemoveAndResume(tag, Answers(typ, body), about);
    }

    method CancelTag(tag: Tag, ghost about: nat)
      requires Valid()
      modifies this
      ensures Valid() && log == Apply(old(log), Cancel(tag), about)
    {
      RemoveAndResume(tag, w => Cancelled, about);
    }

    method Disconnect()
      requires Valid()
      modifies this
      ensures Valid() && forall about :: log == Apply(old(log), FailAll, about)
    {
      FailAllInflight();
    }
  }

  /** The loop over a copy of the table, when the entries under todo are still to come: the others have been
      taken out of it and resumed. */
  function FailedSome(s: State, todo: set<Tag>): State {
    var lost := Requests(s.inflight - todo);
    s.(inflight := Within(s.inflight, todo),
       resumed := s.resumed + AllLost(lost), cause := s.cause + Themselves(lost))
  }

  lemma NoneLost(s: State)
    ensures FailedSome(s, s.inflight.Keys) == s && FailedSome(s, {}) == FailedAll(s)
  {
    assert s.inflight - s.inflight.Keys == map[] && s.inflight - {} == s.inflight;
    assert Requests(map[]) == {};
    assert s.resumed + AllLost({}) == s.resumed && s.cause + Themselves({}) == s.cause;
    assert Within(s.inflight, s.inflight.Keys) == s.inflight && Within(s.inflight, {}) == map[];
  }

  lemma RequestsLeft(inflight: map<Tag, Waiter>, todo: set<Tag>, tag: Tag)
    requires tag in todo && tag in inflight
    ensures Requests(inflight - (todo - {tag})) == Requests(inflight - todo) + {inflight[tag].request}
  {
    var before, after := inflight - todo, inflight - (todo - {tag});
    assert tag in after && after[tag] == inflight[tag];
    forall q | q in Requests(before) ensures q in Requests(after) {
      var t :| t in before && before[t].request == q;
      assert t in after && after[t].request == q;
    }
    forall q | q in Requests(after) ensures q in Requests(before) + {inflight[tag].request} {
      var t :| t in after && after[t].request == q;
      assert t != tag ==> t in before && before[t].request == q;
    }
  }

  lemma ResumedMore(m: map<nat, Outcome>, lost: set<nat>, r: nat)
    ensures m + AllLost(lost + {r}) == (m + AllLost(lost))[r := ConnectionLost]
  {}

  lemma CauseMore(m: map<nat, nat>, lost: set<nat>, r: nat)
    ensures m + Themselves(lost + {r}) == (m + Themselves(lost))[r := r]
  {}

  function Within(inflight: map<Tag, Waiter>, todo: set<Tag>): map<Tag, Waiter> {
    map t | t in inflight && t in todo :: inflight[t]
  }

  lemma WithinLess(inflight: map<Tag, Waiter>, todo: set<Tag>, tag: Tag)
    ensures Within(inflight, todo - {tag}) == Within(inflight, todo) - {tag}
  {}

  lemma FailedOne(s: State, todo: set<Tag>, tag: Tag)
    requires todo <= s.inflight.Keys && tag in todo
    ensures var t := FailedSome(s, todo); var w := s.inflight[tag];
      && tag in t.inflight && t.inflight[tag] == w
      && FailedSome(s, todo - {tag}) == Resume(t.(inflight := t.inflight - {tag}), w, ConnectionLost, w.request)
  {
    var w, lost := s.inflight[tag], Requests(s.inflight - todo);
    RequestsLeft(s.inflight, todo, tag);
    ResumedMore(s.resumed, lost, w.request);
    CauseMore(s.cause, lost, w.request);
    WithinLess(s.inflight, todo, tag);
  }
}
