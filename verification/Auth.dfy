/** Tickets and authenticators of kext/auth.c: fixed-size records, packed byte by byte behind a moving
    pointer and encrypted in place. */
module Auth {
  import opened CStrings
  import opened Cipher
  import opened Feistel
  import opened KeySchedule
  import opened Options
  import opened PassToKey
  import opened Sequences

  const DOMLEN := 48
  const CHALLEN := 8
  const TICKETLEN := 72
  const AUTHENTLEN := 13
  const TICKREQLEN := 141
  const AUTHTS: bv8 := 64
  const AUTHTC: bv8 := 65
  const EINVAL := 22

  type Challenge = s: seq<bv8> | |s| == CHALLEN witness seq(CHALLEN, _ => 0)
  type Name = s: seq<bv8> | |s| == NAMELEN witness seq(NAMELEN, _ => 0)
  type Domain = s: seq<bv8> | |s| == DOMLEN witness seq(DOMLEN, _ => 0)

  datatype Ticket = Ticket(num: bv8, chal: Challenge, cuid: Name, suid: Name, key: Key)
  datatype Authenticator = Authenticator(num: bv8, chal: Challenge, id: bv32)
  datatype TicketRequest = TicketRequest(typ: bv8, authid: Name, authdom: Domain, chal: Challenge, hostid: Name,
    uid: Name)

  // ----- layouts -----

  function TicketBytes(t: Ticket): (r: seq<bv8>)
    ensures |r| == TICKETLEN
  {
    [t.num] + t.chal + t.cuid + t.suid + t.key
  }

  function RequestBytes(t: TicketRequest): (r: seq<bv8>)
    ensures |r| == TICKREQLEN
  {
    [t.typ] + t.authid + t.authdom + t.chal + t.hostid + t.uid
  }

  function LongBytes(x: bv32): seq<bv8> { [LowOctet(x), LowOctet(x >> 8), LowOctet(x >> 16), LowOctet(x >> 24)] }
  function LongOf(p0: bv8, p1: bv8, p2: bv8, p3: bv8): bv32 {
    (p0 as bv32) | ((p1 as bv32) << 8) | ((p2 as bv32) << 16) | ((p3 as bv32) << 24)
  }

  function AuthenticatorBytes(a: Authenticator): (r: seq<bv8>)
    ensures |r| == AUTHENTLEN
  {
    [a.num] + a.chal + LongBytes(a.id)
  }

  /** A name whose last byte the decoder has overwritten by its terminator. */
  function Terminated(s: seq<bv8>): (r: seq<bv8>)
    requires |s| > 0
    ensures |r| == |s|
  {
    s[|s| - 1 := 0]
  }

  function TerminatedTicket(t: Ticket): Ticket { t.(cuid := Terminated(t.cuid), suid := Terminated(t.suid)) }
  function TerminatedRequest(t: TicketRequest): TicketRequest {
    t.(authid := Terminated(t.authid), authdom := Terminated(t.authdom), hostid := Terminated(t.hostid),
      uid := Terminated(t.uid))
  }

  predicate NamesTerminated(t: Ticket) { t.cuid[NAMELEN - 1] == 0 && t.suid[NAMELEN - 1] == 0 }
  predicate RequestTerminated(t: TicketRequest) {
    t.authid[NAMELEN - 1] == 0 && t.authdom[DOMLEN - 1] == 0 && t.hostid[NAMELEN - 1] == 0 && t.uid[NAMELEN - 1] == 0
  }

  /** What is put on the wire under an optional key, and what is taken off it. */
  function Sealed(tb: Tables, key: Option<Key>, s: seq<bv8>): (r: seq<bv8>)
    ensures |r| == |s|
  {
    match key
    case None => s
    case Some(k) => EncryptedLength(tb, k, s); Encrypted(tb, k, s)
  }

  function Opened(tb: Tables, key: Option<Key>, s: seq<bv8>): (r: seq<bv8>)
    ensures |r| == |s|
  {
    match key
    case None => s
    case Some(k) => EncryptedLength(tb, k, s); Decrypted(tb, k, s)
  }

  lemma OpenedSealed(tb: Tables, key: Option<Key>, s: seq<bv8>)
    ensures Opened(tb, key, Sealed(tb, key, s)) == s
  {
    if key.Some? { DecryptUndoesEncrypt(tb, key.value, s); }
  }

  // ----- the packing macros: a pointer p moves over the buffer -----

  method Put(buf: array<bv8>, ghost base: nat, p: nat, x: seq<bv8>) returns (p': nat)
    requires base <= p && p + |x| <= buf.Length
    modifies buf
    ensures p' == p + |x| && buf[base..p'] == old(buf[base..p]) + x
    ensures forall k :: 0 <= k < buf.Length && !(p <= k < p') ==> buf[k] == old(buf[k])
  {
    forall i | 0 <= i < |x| { buf[p + i] := x[i]; }
    p' := p + |x|;
    assert buf[base..p] == old(buf[base..p]);
  }

  lemma SameAround(s: seq<bv8>, t: seq<bv8>, off: nat, n: nat)
    requires |s| == |t| && off + n <= |s|
    requires forall k :: 0 <= k < |s| && !(off <= k < off + n) ==> t[k] == s[k]
    ensures Around(t, off, n) == Around(s, off, n)
  {
    assert t[..off] == s[..off] && t[off + n..] == s[off + n..];
  }

  method Seal(tb: Tables, key: Option<Key>, buf: array<bv8>, off: nat, n: nat)
    requires off + n <= buf.Length
    modifies buf
    ensures Around(buf[..], off, n) == Around(old(buf[..]), off, n)
    ensures buf[off..off + n] == Sealed(tb, key, old(buf[off..off + n]))
  {
    if key.Some? { var done := Encrypt(tb, key.value, buf, off, n); }
  }

  method Open(tb: Tables, key: Option<Key>, buf: array<bv8>, off: nat, n: nat)
    requires off + n <= buf.Length
    modifies buf
    ensures Around(buf[..], off, n) == Around(old(buf[..]), off, n)
    ensures buf[off..off + n] == Opened(tb, key, old(buf[off..off + n]))
  {
    if key.Some? { var done := Decrypt(tb, key.value, buf, off, n); }
  }

  method PackTicket(f: Ticket, buf: array<bv8>, ap: nat) returns (n: nat)
    requires ap + TICKETLEN <= buf.Length
    modifies buf
    ensures n == TICKETLEN && buf[ap..ap + n] == TicketBytes(f)
    ensures Around(buf[..], ap, n) == Around(old(buf[..]), ap, n)
  {
    var p := Put(buf, ap, ap, [f.num]);
    p := Put(buf, ap, p, f.chal);
    p := Put(buf, ap, p, f.cuid);
    p := Put(buf, ap, p, f.suid);
    p := Put(buf, ap, p, f.key);
    n := p - ap;
    SameAround(old(buf[..]), buf[..], ap, n);
  }

  method ConvT2M(tb: Tables, f: Ticket, buf: array<bv8>, ap: nat, key: Option<Key>) returns (n: nat)
    requires ap + TICKETLEN <= buf.Length
    modifies buf
    ensures n == TICKETLEN && buf[ap..ap + n] == Sealed(tb, key, TicketBytes(f))
    ensures Around(buf[..], ap, n) == Around(old(buf[..]), ap, n)
  {
    n := PackTicket(f, buf, ap);
    Seal(tb, key, buf, ap, n);
  }

  method PackAuthenticator(f: Authenticator, buf: array<bv8>, ap: nat) returns (n: nat)
    requires ap + AUTHENTLEN <= buf.Length
    modifies buf
    ensures n == AUTHENTLEN && buf[ap..ap + n] == AuthenticatorBytes(f)
    ensures Around(buf[..], ap, n) == Around(old(buf[..]), ap, n)
  {
    var p := Put(buf, ap, ap, [f.num]);
    p := Put(buf, ap, p, f.chal);
    p := Put(buf, ap, p, LongBytes(f.id));
    n := p - ap;
    SameAround(old(buf[..]), buf[..], ap, n);
  }

  method ConvA2M(tb: Tables, f: Authenticator, buf: array<bv8>, ap: nat, key: Option<Key>) returns (n: nat)
    requires ap + AUTHENTLEN <= buf.Length
    modifies buf
    ensures n == AUTHENTLEN && buf[ap..ap + n] == Sealed(tb, key, AuthenticatorBytes(f))
    ensures Around(buf[..], ap, n) == Around(old(buf[..]), ap, n)
  {
    n := PackAuthenticator(f, buf, ap);
    Seal(tb, key, buf, ap, n);
  }

  method ConvTR2M(f: TicketRequest, buf: array<bv8>, ap: nat) returns (n: nat)
    requires ap + TICKREQLEN <= buf.Length
    modifies buf
    ensures n == TICKREQLEN && buf[ap..ap + n] == RequestBytes(f)
    ensures Around(buf[..], ap, n) == Around(old(buf[..]), ap, n)
  {
    var p := Put(buf, ap, ap, [f.typ]);
    p := Put(buf, ap, p, f.authid);
    p := Put(buf, ap, p, f.authdom);
    p := Put(buf, ap, p, f.chal);
    p := Put(buf, ap, p, f.hostid);
    p := Put(buf, ap, p, f.uid);
    n := p - ap;
    SameAround(old(buf[..]), buf[..], ap, n);
  }

  // ----- unpacking, the last byte of every name overwritten by its terminator -----

  function Unticket(s: seq<bv8>): Ticket
    requires |s| == TICKETLEN
  {
    Ticket(s[0], s[1..9], Terminated(s[9..37]), Terminated(s[37..65]), s[65..72])
  }

  function Unauthenticator(s: seq<bv8>): Authenticator
    requires |s| == AUTHENTLEN
  {
    Authenticator(s[0], s[1..9], LongOf(s[9], s[10], s[11], s[12]))
  }

  function Unrequest(s: seq<bv8>): TicketRequest
    requires |s| == TICKREQLEN
  {
    TicketRequest(s[0], Terminated(s[1..29]), Terminated(s[29..77]), s[77..85], Terminated(s[85..113]),
      Terminated(s[113..141]))
  }

  /** The field of n bytes at p of a record that starts at ap. */
  lemma FieldAt(buf: array<bv8>, ap: nat, size: nat, p: nat, n: nat)
    requires ap + size <= buf.Length && ap <= p && p + n <= ap + size
    ensures buf[p..p + n] == buf[ap..ap + size][p - ap..p - ap + n]
  {
    SubSlice(buf[..], ap, ap + size, p - ap, p - ap + n);
    assert buf[..][ap..ap + size] == buf[ap..ap + size];
  }

  method UnpackTicket(buf: array<bv8>, ap: nat) returns (f: Ticket)
    requires ap + TICKETLEN <= buf.Length
    ensures f == Unticket(buf[ap..ap + TICKETLEN])
  {
    var p := ap;
    var num := buf[p];
    p := p + 1;
    FieldAt(buf, ap, TICKETLEN, p, CHALLEN);
    var chal := buf[p..p + CHALLEN];
    p := p + CHALLEN;
    FieldAt(buf, ap, TICKETLEN, p, NAMELEN);
    var cuid := buf[p..p + NAMELEN];
    p := p + NAMELEN;
    cuid := cuid[NAMELEN - 1 := 0];
    FieldAt(buf, ap, TICKETLEN, p, NAMELEN);
    var suid := buf[p..p + NAMELEN];
    p := p + NAMELEN;
    suid := suid[NAMELEN - 1 := 0];
    FieldAt(buf, ap, TICKETLEN, p, DESKEYLEN);
    var key := buf[p..p + DESKEYLEN];
    p := p + DESKEYLEN;
    f := Ticket(num, chal, cuid, suid, key);
  }

  method ConvM2T(tb: Tables, buf: array<bv8>, ap: nat, key: Option<Key>) returns (f: Ticket)
    requires ap + TICKETLEN <= buf.Length
    modifies buf
    ensures f == Unticket(Opened(tb, key, old(buf[ap..ap + TICKETLEN])))
    ensures Around(buf[..], ap, TICKETLEN) == Around(old(buf[..]), ap, TICKETLEN)
  {
    Open(tb, key, buf, ap, TICKETLEN);
    f := UnpackTicket(buf, ap);
  }

  /** The assignments of convM2A, behind the decryption. */
  method UnpackAuthenticator(buf: array<bv8>, ap: nat) returns (f: Authenticator)
    requires ap + AUTHENTLEN <= buf.Length
    ensures f == Unauthenticator(buf[ap..ap + AUTHENTLEN])
  {
    var p := ap;
    var num := buf[p];
    p := p + 1;
    FieldAt(buf, ap, AUTHENTLEN, p, CHALLEN);
    var chal := buf[p..p + CHALLEN];
    p := p + CHALLEN;
    var id := LongOf(buf[p], buf[p + 1], buf[p + 2], buf[p + 3]);
    f := Authenticator(num, chal, id);
  }

  method ConvM2A(tb: Tables, buf: array<bv8>, ap: nat, key: Option<Key>) returns (f: Authenticator)
    requires ap + AUTHENTLEN <= buf.Length
    modifies buf
    ensures f == Unauthenticator(Opened(tb, key, old(buf[ap..ap + AUTHENTLEN])))
    ensures Around(buf[..], ap, AUTHENTLEN) == Around(old(buf[..]), ap, AUTHENTLEN)
  {
    Open(tb, key, buf, ap, AUTHENTLEN);
    f := UnpackAuthenticator(buf, ap);
  }

  method ConvM2TR(buf: array<bv8>, ap: nat) returns (f: TicketRequest)
    requires ap + TICKREQLEN <= buf.Length
    ensures f == Unrequest(buf[ap..ap + TICKREQLEN])
  {
    var p := ap;
    var typ := buf[p];
    p := p + 1;
    FieldAt(buf, ap, TICKREQLEN, p, NAMELEN);
    var authid := buf[p..p + NAMELEN];
    p := p + NAMELEN;
    authid := authid[NAMELEN - 1 := 0];
    FieldAt(buf, ap, TICKREQLEN, p, DOMLEN);
    var authdom := buf[p..p + DOMLEN];
    p := p + DOMLEN;
    authdom := authdom[DOMLEN - 1 := 0];
    FieldAt(buf, ap, TICKREQLEN, p, CHALLEN);
    var chal := buf[p..p + CHALLEN];
    p := p + CHALLEN;
    FieldAt(buf, ap, TICKREQLEN, p, NAMELEN);
    var hostid := buf[p..p + NAMELEN];
    p := p + NAMELEN;
    hostid := hostid[NAMELEN - 1 := 0];
    FieldAt(buf, ap, TICKREQLEN, p, NAMELEN);
    var uid := buf[p..p + NAMELEN];
    p := p + NAMELEN;
    uid := uid[NAMELEN - 1 := 0];
    f := TicketRequest(typ, authid, authdom, chal, hostid, uid);
  }

  // ----- where the parts lie -----

  /** num[1] chal[8] cuid[28] suid[28] key[7] */
  lemma TicketPlaces(t: Ticket)
    ensures var s := TicketBytes(t);
      s[0] == t.num && s[1..9] == t.chal && s[9..37] == t.cuid && s[37..65] == t.suid && s[65..72] == t.key
  {}

  /** type[1] authid[28] authdom[48] chal[8] hostid[28] uid[28] */
  lemma RequestPlaces(t: TicketRequest)
    ensures var s := RequestBytes(t);
      s[0] == t.typ && s[1..29] == t.authid && s[29..77] == t.authdom && s[77..85] == t.chal &&
      s[85..113] == t.hostid && s[113..141] == t.uid
  {}

  /** num[1] chal[8] id[4], the lowest byte of id first */
  lemma AuthenticatorPlaces(a: Authenticator)
    ensures var s := AuthenticatorBytes(a);
      s[0] == a.num && s[1..9] == a.chal && s[9] == (a.id & 0xff) as bv8 && s[10] == ((a.id >> 8) & 0xff) as bv8 &&
      s[11] == ((a.id >> 16) & 0xff) as bv8 && s[12] == ((a.id >> 24) & 0xff) as bv8
  {}

  /** With a key the bytes are enciphered and deciphered, without one they go as they are. */
  lemma UnderKey(tb: Tables, key: Key, s: seq<bv8>)
    ensures Sealed(tb, Some(key), s) == Encrypted(tb, key, s) && Opened(tb, Some(key), s) == Decrypted(tb, key, s)
    ensures Sealed(tb, None, s) == s && Opened(tb, None, s) == s
  {}

  // ----- round trips -----

  lemma UnticketTicket(t: Ticket)
    ensures Unticket(TicketBytes(t)) == TerminatedTicket(t)
  {
    var s := TicketBytes(t);
    assert s[0] == t.num && s[1..9] == t.chal && s[9..37] == t.cuid && s[37..65] == t.suid && s[65..] == t.key;
  }

  /** Under one key, or none, a ticket survives exactly when both its names are terminated. */
  lemma TicketRoundTrip(tb: Tables, key: Option<Key>, t: Ticket)
    ensures Unticket(Opened(tb, key, Sealed(tb, key, TicketBytes(t)))) == TerminatedTicket(t)
    ensures Unticket(Opened(tb, key, Sealed(tb, key, TicketBytes(t)))) == t <==> NamesTerminated(t)
  {
    OpenedSealed(tb, key, TicketBytes(t));
    UnticketTicket(t);
  }

  lemma RequestRoundTrip(t: TicketRequest)
    ensures Unrequest(RequestBytes(t)) == TerminatedRequest(t)
    ensures Unrequest(RequestBytes(t)) == t <==> RequestTerminated(t)
  {
    var s := RequestBytes(t);
    assert s[0] == t.typ && s[1..29] == t.authid && s[29..77] == t.authdom;
    assert s[77..85] == t.chal && s[85..113] == t.hostid && s[113..] == t.uid;
  }

  lemma LongUndone(x: bv32)
    ensures LongOf(LowOctet(x), LowOctet(x >> 8), LowOctet(x >> 16), LowOctet(x >> 24)) == x
  {}

  lemma AuthenticatorRoundTrip(tb: Tables, key: Option<Key>, a: Authenticator)
    ensures Unauthenticator(Opened(tb, key, Sealed(tb, key, AuthenticatorBytes(a)))) == a
  {
    OpenedSealed(tb, key, AuthenticatorBytes(a));
    var s := AuthenticatorBytes(a);
    assert s[0] == a.num && s[1..9] == a.chal && s[9..] == LongBytes(a.id);
    LongUndone(a.id);
  }

  // ----- mkserverticket -----

  function Text0(s: seq<bv8>): seq<bv8> { UpTo(s, 0) }

  /** strcmp(s, t) == 0; s is terminated within its bytes, as convM2TR leaves authid. */
  method SameText(s: Name, t: Name) returns (same: bool)
    requires 0 in s
    ensures same <==> Text0(s) == Text0(t)
  {
    var i := 0;
    while s[i] != 0 && s[i] == t[i]
      invariant i < NAMELEN && 0 in s[i..]
      invariant Text0(s) == Text0(t) <==> Text0(s[i..]) == Text0(t[i..])
      decreases NAMELEN - i
    {
      assert s[i..][1..] == s[i + 1..] && t[i..][1..] == t[i + 1..];
      assert s[i..] == [s[i]] + s[i + 1..];
      TextStep(s[i..], t[i..]);
      i := i + 1;
    }
    TextHead(s[i..], t[i..]);
    same := s[i] == t[i];
  }

  lemma TextHead(s: seq<bv8>, t: seq<bv8>)
    requires s != [] && t != [] && (s[0] == 0 || s[0] != t[0])
    ensures Text0(s) == Text0(t) <==> s[0] == t[0]
  {
    assert s[0] != 0 ==> Text0(s)[0] == s[0];
    assert t[0] != 0 ==> Text0(t)[0] == t[0];
  }

  lemma TextStep(s: seq<bv8>, t: seq<bv8>)
    requires s != [] && t != [] && s[0] != 0 && s[0] == t[0]
    ensures Text0(s) == Text0(t) <==> Text0(s[1..]) == Text0(t[1..])
  {
    assert Text0(s)[1..] == Text0(s[1..]) && Text0(t)[1..] == Text0(t[1..]);
  }

  function ServerTicket(num: bv8, tr: TicketRequest, session: Key): Ticket {
    Ticket(num, tr.chal, tr.uid, tr.uid, session)
  }

  /** session is what read_random yields. */
  method Mkserverticket(tb: Tables, tr: TicketRequest, authkey: Key, session: Key, tbuf: array<bv8>) returns (e: nat)
    requires 0 in tr.authid && tbuf.Length >= 2 * TICKETLEN
    modifies tbuf
    ensures e == if Text0(tr.authid) == Text0(tr.hostid) then 0 else EINVAL
    ensures e != 0 ==> tbuf[..] == old(tbuf[..])
    ensures e == 0 ==> tbuf[..TICKETLEN] == Sealed(tb, Some(authkey), TicketBytes(ServerTicket(AUTHTC, tr, session)))
    ensures e == 0 ==>
      tbuf[TICKETLEN..2 * TICKETLEN] == Sealed(tb, Some(authkey), TicketBytes(ServerTicket(AUTHTS, tr, session)))
    ensures tbuf[2 * TICKETLEN..] == old(tbuf[2 * TICKETLEN..])
  {
    var same := SameText(tr.authid, tr.hostid);
    if !same { return EINVAL; }
    var t := Ticket(AUTHTC, tr.chal, tr.uid, tr.uid, session);
    var n := ConvT2M(tb, t, tbuf, 0, Some(authkey));
    ghost var was := tbuf[..];
    assert was[TICKETLEN..][TICKETLEN..] == tbuf[2 * TICKETLEN..];
    t := t.(num := AUTHTS);
    n := ConvT2M(tb, t, tbuf, TICKETLEN, Some(authkey));
    assert tbuf[..][..TICKETLEN] == was[..TICKETLEN];
    return 0;
  }

  /** Both tickets open under authkey to the challenge, user and session key of the request, numbered
      AuthTc and AuthTs; the user name loses its last byte unless that is a terminator. */
  lemma ServerTicketsOpen(tb: Tables, tr: TicketRequest, authkey: Key, session: Key, num: bv8)
    ensures var t := Unticket(Opened(tb, Some(authkey),
      Sealed(tb, Some(authkey), TicketBytes(ServerTicket(num, tr, session)))));
      && t.num == num && t.chal == tr.chal && t.key == session && t.cuid == t.suid == Terminated(tr.uid)
      && (t == ServerTicket(num, tr, session) <==> tr.uid[NAMELEN - 1] == 0)
  {
    TicketRoundTrip(tb, Some(authkey), ServerTicket(num, tr, session));
  }
}
