/** The connection close protocol of net/SocketImpl.cpp.

    `Endpoint` is the part of a socket the protocol reads and writes, with a
    record of what it has done and seen.  The class `Socket` is the socket's code;
    its methods are proved against the functions on `Endpoint`.  Two systems of two
    endpoints follow: one with a network that loses, repeats and reorders, for
    safety, and one with exactly-once delivery in any order, for termination.
 */
module CloseProtocol {

  datatype Status = Close | Ready | FinWait1 | FinWait2 | TimeWait | Closing | CloseWait | LastAck

  /** What the header flags of a message mean to the protocol.  `Other` is any
      message with none of the three control flags. */
  datatype Packet = Fin | FinAck | Rst | Other

  /** How the socket object left the socket manager, if it has. */
  datatype Release = Held | Graceful | ByReset

  /** `passive`: the peer's FIN was processed before an own FIN was sent. */
  datatype Endpoint = Endpoint(status: Status, release: Release, fins: nat, gotFin: bool, gotFinAck: bool, passive: bool)

  const FRESH := Endpoint(Close, Held, 0, false, false, false)

  // ---------------------------------------------------------------- the status a history calls for

  /** The status that a record of sent and received control messages calls for. */
  ghost predicate StatusFits(e: Endpoint) {
    match e.status
    case Close | Ready => e.fins == 0 && !e.gotFin && !e.gotFinAck
    case FinWait1 => e.fins == 1 && !e.gotFin && !e.gotFinAck
    case FinWait2 => e.fins == 1 && !e.gotFin && e.gotFinAck
    case Closing => e.fins == 1 && e.gotFin && !e.gotFinAck && !e.passive
    case LastAck => e.fins == 1 && e.gotFin && !e.gotFinAck && e.passive
    case TimeWait => e.fins == 1 && e.gotFin && e.gotFinAck && !e.passive
    case CloseWait => false
  }

  /** A gracefully released endpoint has sent and seen everything. */
  ghost predicate WellKept(e: Endpoint) {
    && e.fins <= 1
    && (e.gotFin ==> e.fins == 1)
    && (e.passive ==> e.gotFin)
    && (e.release.Held? ==> StatusFits(e))
    && (e.release.Graceful? ==> e.fins == 1 && e.gotFin && e.gotFinAck)
  }

  function Rank(e: Endpoint): nat {
    if !e.release.Held? then 5 else
    match e.status
    case Close => 0
    case Ready => 1
    case FinWait1 => 2
    case CloseWait => 2
    case FinWait2 => 3
    case Closing => 3
    case LastAck => 3
    case TimeWait => 4
  }

  predicate CanSend(e: Endpoint) { e.status.Close? || e.status.Ready? }

  // ---------------------------------------------------------------- endpoint steps

  /** The user closes the connection. */
  function OnClose(e: Endpoint): (Endpoint, seq<Packet>) {
    match e.status
    case Ready => (e.(status := FinWait1, fins := e.fins + 1), [Fin])
    case CloseWait => (e.(status := LastAck, fins := e.fins + 1), [Fin])
    case _ => (e, [])
  }

  function OnFin(e: Endpoint): (Endpoint, seq<Packet>) {
    var d := e.(gotFin := true);
    match e.status
    case Ready => (d.(status := LastAck, fins := e.fins + 1, passive := true), [FinAck, Fin])
    case FinWait1 => (d.(status := Closing), [FinAck])
    case FinWait2 => (d.(status := TimeWait), [FinAck])
    case _ => (d, [FinAck])
  }

  function OnFinAck(e: Endpoint): Endpoint {
    var d := e.(gotFinAck := true);
    match e.status
    case LastAck => d.(release := Graceful)
    case FinWait1 => d.(status := FinWait2)
    case Closing => d.(status := TimeWait)
    case _ => d
  }

  /** A message arrives at a held endpoint. */
  function OnPacket(e: Endpoint, p: Packet): (Endpoint, seq<Packet>) {
    var d := if e.status.Close? then e.(status := Ready) else e;
    if d.status.TimeWait? then (d, [Rst]) else
    match p
    case Rst => (d.(status := Close, release := ByReset), [])
    case Fin => OnFin(d)
    case FinAck => (OnFinAck(d), [])
    case Other => (d, [])
  }

  /** The 2MSL timer fires. It is treated like a message due to be sent again: the user is asked
      first, and without his leave (`keep`) nothing happens. */
  function OnTimer(e: Endpoint, keep: bool): Endpoint { if keep then e.(release := Graceful) else e }

  // ---------------------------------------------------------------- the socket as written

  class Socket {
    var status: Status
    var release: Release
    var timers: nat          // 2MSL timers armed
    var out: seq<Packet>     // control messages handed to SendMessage
    ghost var fins: nat
    ghost var gotFin: bool
    ghost var gotFinAck: bool
    ghost var passive: bool

    ghost function View(): Endpoint
      reads this
    {
      Endpoint(status, release, fins, gotFin, gotFinAck, passive)
    }

    constructor ()
      ensures View() == FRESH && out == [] && timers == 0
    {
      status, release, timers, out := Close, Held, 0, [];
      fins, gotFin, gotFinAck, passive := 0, false, false, false;
    }

    predicate CanSendMessage()
      reads this
      ensures CanSendMessage() == CanSend(View())
    {
      status == Close || status == Ready
    }

    /** Moves to `to` only along an edge of the diagram; otherwise logs and stays. */
    method StatusChange(to: Status)
      modifies this`status, this`release
      ensures to == Close ==> release == Graceful && status == old(status)
      ensures to != Close ==> release == old(release)
      ensures to != Close ==> status == if Edge(old(status), to) then to else old(status)
    {
      match to
      case Close => release := Graceful;
      case Ready => if status == Close { status := Ready; }
      case FinWait1 => if status == Ready { status := FinWait1; }
      case FinWait2 => if status == FinWait1 { status := FinWait2; }
      case TimeWait => if status == FinWait2 || status == Closing { status := TimeWait; }
      case Closing => if status == FinWait1 { status := Closing; }
      case CloseWait => if status == Ready { status := CloseWait; }
      case LastAck => if status == CloseWait { status := LastAck; }
    }

    method SendFinMessage()
      modifies this`status, this`release, this`out, this`fins
      ensures View() == OnClose(old(View())).0
      ensures out == old(out) + OnClose(old(View())).1
    {
      if status != Ready && status != CloseWait {
        return;
      }
      fins := fins + 1;
      StatusChange(if status == Ready then FinWait1 else LastAck);
      out := out + [Fin];
    }

    method SendFinAckMessage()
      modifies this`out
      ensures out == old(out) + [FinAck]
    {
      out := out + [FinAck];
    }

    method SendResetMsg()
      modifies this`out
      ensures out == old(out) + [Rst]
    {
      out := out + [Rst];
    }

    method Wait2MslClose()
      modifies this`timers
      ensures timers == old(timers) + if status == TimeWait then 1 else 0
    {
      if status != TimeWait {
        return;
      }
      timers := timers + 1;
    }

    method CheckClose(p: Packet)
      modifies this
      ensures p == Fin ==> View() == OnFin(old(View())).0 && out == old(out) + OnFin(old(View())).1
      ensures p == FinAck ==> View() == OnFinAck(old(View())) && out == old(out)
      ensures p == Other || p == Rst ==> View() == old(View()) && out == old(out)
      // a timer is armed exactly on entry to TIME_WAIT
      ensures timers == old(timers) + if status == TimeWait && old(status) != TimeWait then 1 else 0
    {
      if p == Fin {
        gotFin := true;
        SendFinAckMessage();
        if status == Ready {
          passive := true;
          StatusChange(CloseWait);
          SendFinMessage();
        } else if status == FinWait1 {
          StatusChange(Closing);
        } else if status == FinWait2 {
          StatusChange(TimeWait);
          Wait2MslClose();
        }
        return;
      }
      if p == FinAck {
        gotFinAck := true;
        if status == LastAck {
          StatusChange(Close);
        } else if status == FinWait1 {
          StatusChange(FinWait2);
        } else if status == Closing {
          StatusChange(TimeWait);
          Wait2MslClose();
        }
        return;
      }
    }

    method RecvMessage(p: Packet)
      modifies this
      ensures View() == OnPacket(old(View()), p).0
      ensures out == old(out) + OnPacket(old(View()), p).1
      // the socket never rests in CLOSE_WAIT
      ensures old(status) != CloseWait ==> status != CloseWait
    {
      if status == Close {
        StatusChange(Ready);
      }
      if status == TimeWait {
        SendResetMsg();
        return;
      }
      if p == Rst {
        status := Close;
        release := ByReset;
        return;
      }
      CheckClose(p);
    }

    /** The timer message with the 2MSL flag comes back; `keepResending` is the answer of the
        user's resend callback. */
    method TimerOut(keepResending: bool)
      modifies this`status, this`release
      ensures View() == OnTimer(old(View()), keepResending)
      ensures status == old(status) && (release == Graceful <==> keepResending || old(release) == Graceful)
    {
      if !keepResending {
        return;
      }
      StatusChange(Close);
    }
  }

  predicate Edge(from: Status, to: Status) {
    (from, to) in {
      (Close, Ready), (Ready, FinWait1), (FinWait1, FinWait2), (FinWait2, TimeWait), (Closing, TimeWait),
      (FinWait1, Closing), (Ready, CloseWait), (CloseWait, LastAck) }
  }

  // ---------------------------------------------------------------- two endpoints

  datatype Side = L | R {
    function Peer(): Side { if L? then R else L }
  }

  datatype Pair<T> = Pair(l: T, r: T) {
    function At(i: Side): T { if i.L? then l else r }
    function With(i: Side, t: T): Pair<T> { if i.L? then Pair(t, r) else Pair(l, t) }
  }

  // ---------------------------------------------------------------- safety: loss, duplication, reordering

  /** `soup.At(i)`: every packet ever sent to `i`.  Any of them may arrive any
      number of times, in any order, or never. */
  datatype Lossy = Lossy(ends: Pair<Endpoint>, soup: Pair<set<Packet>>)

  /** `Chatter(i)`: `i` sends a message without control flags.  `Disorder(i)`: `i` gives up on a
      disordered stream and sends a reset. */
  datatype Event = UserClose(i: Side) | Deliver(i: Side, p: Packet) | Expire(i: Side, keep: bool) | Chatter(i: Side) | Disorder(i: Side)

  predicate Enabled(s: Lossy, v: Event) {
    var e := s.ends.At(v.i);
    e.release.Held? &&
    match v
    case Deliver(i, p) => p in s.soup.At(i)
    case Expire(_, _) => e.status.TimeWait?
    case _ => true
  }

  function Sends(s: Lossy, i: Side, e: Endpoint, ps: seq<Packet>): Lossy {
    Lossy(s.ends.With(i, e), s.soup.With(i.Peer(), s.soup.At(i.Peer()) + set p | p in ps))
  }

  function Next(s: Lossy, v: Event): Lossy
    requires Enabled(s, v)
  {
    var e := s.ends.At(v.i);
    match v
    case UserClose(i) => Sends(s, i, OnClose(e).0, OnClose(e).1)
    case Deliver(i, p) => Sends(s, i, OnPacket(e, p).0, OnPacket(e, p).1)
    case Expire(i, keep) => Sends(s, i, OnTimer(e, keep), [])
    case Chatter(i) => Sends(s, i, e, [Other])
    case Disorder(i) => Sends(s, i, e, [Rst])
  }

  ghost predicate SafeHalf(s: Lossy, i: Side) {
    var e, peer := s.ends.At(i), s.ends.At(i.Peer());
    && WellKept(e)
    && (Fin in s.soup.At(i.Peer()) ==> e.fins == 1)
    && (FinAck in s.soup.At(i.Peer()) ==> e.gotFin)
    && (e.gotFin ==> peer.fins == 1)
    && (e.gotFinAck ==> peer.gotFin)
  }

  ghost predicate Safe(s: Lossy) { SafeHalf(s, L) && SafeHalf(s, R) }

  const LOSSY_START := Lossy(Pair(FRESH, FRESH), Pair({}, {}))

  lemma NextKeepsSafe(s: Lossy, v: Event)
    requires Safe(s) && Enabled(s, v)
    ensures Safe(Next(s, v))
  {
    match v
    case UserClose(i) =>
    case Deliver(i, p) => DeliverKeepsSafe(s, i, p);
    case Expire(i, _) =>
    case Chatter(i) =>
    case Disorder(i) =>
  }

  lemma DeliverKeepsSafe(s: Lossy, i: Side, p: Packet)
    requires Safe(s) && Enabled(s, Deliver(i, p))
    ensures Safe(Next(s, Deliver(i, p)))
  {
    var e, t := s.ends.At(i), Next(s, Deliver(i, p));
    assert SafeHalf(s, i) && SafeHalf(s, i.Peer());
    PacketEffect(e, p);
    assert SafeHalf(t, i);
    assert SafeHalf(t, i.Peer());
  }

  /** What receiving one packet does to the record. */
  lemma {:induction false} PacketEffect(e: Endpoint, p: Packet)
    requires WellKept(e) && e.release.Held?
    requires p.FinAck? ==> e.fins == 1
    ensures var (d, ps) := OnPacket(e, p);
            && WellKept(d)
            && e.fins <= d.fins && (e.gotFin ==> d.gotFin) && (e.gotFinAck ==> d.gotFinAck)
            && (d.gotFin ==> e.gotFin || p.Fin?)
            && (d.gotFinAck ==> e.gotFinAck || p.FinAck?)
            && (Fin in ps <==> d.fins == e.fins + 1)
            && (FinAck in ps ==> d.gotFin)
            && Rank(e) <= Rank(d)
            && (e.gotFin && p.Fin? && !e.status.TimeWait? ==> d.status == e.status)
  {
  }

  /** The events of a run and the state they lead to. */
  ghost predicate Possible(s: Lossy, vs: seq<Event>)
    decreases |vs|
  {
    vs == [] || (Enabled(s, vs[0]) && Possible(Next(s, vs[0]), vs[1..]))
  }

  ghost function After(s: Lossy, vs: seq<Event>): Lossy
    requires Possible(s, vs)
    decreases |vs|
  {
    if vs == [] then s else After(Next(s, vs[0]), vs[1..])
  }

  lemma {:induction false} RunKeepsSafe(s: Lossy, vs: seq<Event>)
    requires Safe(s) && Possible(s, vs)
    ensures Safe(After(s, vs))
    decreases |vs|
  {
    if vs != [] {
      NextKeepsSafe(s, vs[0]);
      RunKeepsSafe(Next(s, vs[0]), vs[1..]);
    }
  }

  /** This side has heard that its FIN was processed. */
  predicate Acknowledged(e: Endpoint) {
    if e.release.Held? then e.status.FinWait2? || e.status.TimeWait? else e.release.Graceful?
  }

  /** This side has processed its peer's FIN. */
  predicate HasClosed(e: Endpoint) {
    e.gotFin && (e.release.Held? ==> e.status.LastAck? || e.status.Closing? || e.status.TimeWait?)
  }

  /** Safety of the handshake in every run of the lossy network. */
  lemma {:induction false} HandshakeIsSafe(vs: seq<Event>, i: Side)
    requires Possible(LOSSY_START, vs)
    ensures var s := After(LOSSY_START, vs);
            var e, peer := s.ends.At(i), s.ends.At(i.Peer());
            && (Acknowledged(e) ==> HasClosed(peer))
            && !(e.status.FinWait2? && peer.status.FinWait2? && e.release.Held? && peer.release.Held?)
            && e.fins <= 1
            && !(e.release.Held? && e.status.CloseWait?)
            && (e.release.Held? && e.fins == 1 ==> !CanSend(e))
            && (e.release.Held? ==> StatusFits(e))
  {
    RunKeepsSafe(LOSSY_START, vs);
    var s := After(LOSSY_START, vs);
    assert SafeHalf(s, i) && SafeHalf(s, i.Peer());
  }

  lemma NextNeverLowersRank(s: Lossy, v: Event, i: Side)
    requires Safe(s) && Enabled(s, v)
    ensures Rank(s.ends.At(i)) <= Rank(Next(s, v).ends.At(i))
    ensures s.ends.At(i).fins <= Next(s, v).ends.At(i).fins
  {
    var e := s.ends.At(v.i);
    assert SafeHalf(s, v.i) && SafeHalf(s, v.i.Peer());
    if v.Deliver? { PacketEffect(e, v.p); }
  }

  /** Along every run an endpoint's rank never falls and its FIN is never taken back. */
  lemma {:induction false} RankNeverFalls(s: Lossy, vs: seq<Event>, i: Side)
    requires Safe(s) && Possible(s, vs)
    ensures Rank(s.ends.At(i)) <= Rank(After(s, vs).ends.At(i))
    ensures s.ends.At(i).fins <= After(s, vs).ends.At(i).fins
    decreases |vs|
  {
    if vs != [] {
      NextKeepsSafe(s, vs[0]);
      NextNeverLowersRank(s, vs[0], i);
      RankNeverFalls(Next(s, vs[0]), vs[1..], i);
    }
  }

  // ---------------------------------------------------------------- resets out of TIME_WAIT

  /** No side gives up on a disordered stream, so a reset can only answer something in TIME_WAIT. */
  ghost predicate Undisturbed(vs: seq<Event>) { forall k :: 0 <= k < |vs| ==> !vs[k].Disorder? }

  ghost predicate ResetsAt(s: Lossy, i: Side) {
    && (Rst in s.soup.At(i.Peer()) ==> s.ends.At(i).status.TimeWait?)
    && (s.ends.At(i).release.ByReset? ==> s.ends.At(i.Peer()).status.TimeWait?)
  }

  ghost predicate ResetsFromTimeWait(s: Lossy) { ResetsAt(s, L) && ResetsAt(s, R) }

  lemma NextResetsFromTimeWait(s: Lossy, v: Event)
    requires Safe(s) && ResetsFromTimeWait(s) && Enabled(s, v) && !v.Disorder?
    ensures ResetsFromTimeWait(Next(s, v))
  {
    assert ResetsAt(s, v.i) && ResetsAt(s, v.i.Peer());
    assert ResetsAt(Next(s, v), v.i) && ResetsAt(Next(s, v), v.i.Peer());
  }

  lemma {:induction false} RunResetsFromTimeWait(s: Lossy, vs: seq<Event>)
    requires Safe(s) && ResetsFromTimeWait(s) && Possible(s, vs) && Undisturbed(vs)
    ensures ResetsFromTimeWait(After(s, vs))
    decreases |vs|
  {
    if vs != [] {
      NextKeepsSafe(s, vs[0]);
      NextResetsFromTimeWait(s, vs[0]);
      RunResetsFromTimeWait(Next(s, vs[0]), vs[1..]);
    }
  }

  /** In every undisturbed run, exactly whom a reset can hit: its sender is in TIME_WAIT, its
      receiver is in LAST_ACK, CLOSING or TIME_WAIT, and it breaks off the close of the receiver,
      which then ends by reset and not gracefully, in the first two. */
  lemma {:induction false} ResetHitsTheClosing(vs: seq<Event>, i: Side)
    requires Possible(LOSSY_START, vs) && Undisturbed(vs)
    ensures var s := After(LOSSY_START, vs);
            var e := s.ends.At(i);
            Rst in s.soup.At(i) && e.release.Held? ==>
              && s.ends.At(i.Peer()).status.TimeWait?
              && (e.status.LastAck? || e.status.Closing? || e.status.TimeWait?)
              && (Next(s, Deliver(i, Rst)).ends.At(i).release.ByReset? <==> e.status.LastAck? || e.status.Closing?)
  {
    RunKeepsSafe(LOSSY_START, vs);
    RunResetsFromTimeWait(LOSSY_START, vs);
    var s := After(LOSSY_START, vs);
    assert SafeHalf(s, i) && SafeHalf(s, i.Peer());
    assert ResetsAt(s, i) && ResetsAt(s, i.Peer());
  }

  /** An endpoint taking packets one by one, until it is released. */
  function Takes(e: Endpoint, ps: seq<Packet>): Endpoint
    decreases |ps|
  {
    if ps == [] || !e.release.Held? then e else Takes(OnPacket(e, ps[0]).0, ps[1..])
  }

  /** How an endpoint in LAST_ACK ends, from what it is sent: by the first FIN_ACK or reset. */
  function LastAckEnds(ps: seq<Packet>): Release {
    if ps == [] then Held
    else if ps[0].FinAck? then Graceful
    else if ps[0].Rst? then ByReset
    else LastAckEnds(ps[1..])
  }

  lemma {:induction false} LastAckOutcome(e: Endpoint, ps: seq<Packet>)
    requires e.status.LastAck? && e.release.Held?
    ensures Takes(e, ps).release == LastAckEnds(ps)
    decreases |ps|
  {
    if ps != [] && !ps[0].FinAck? && !ps[0].Rst? { LastAckOutcome(OnPacket(e, ps[0]).0, ps[1..]); }
  }

  lemma {:induction false} FirstEvent(s: Lossy, v: Event, vs: seq<Event>)
    requires Enabled(s, v) && Possible(Next(s, v), vs)
    ensures Possible(s, [v] + vs) && After(s, [v] + vs) == After(Next(s, v), vs)
  {
    assert ([v] + vs)[1..] == vs;
  }

  /** Both sides ready, each having sent one message that the network still holds. */
  lemma {:induction false} OpenRun() returns (vs: seq<Event>)
    ensures Possible(LOSSY_START, vs) && Undisturbed(vs)
    ensures var s := After(LOSSY_START, vs);
            s.ends == Pair(OPEN, OPEN) && Other in s.soup.l && Other in s.soup.r
  {
    var s0 := LOSSY_START;
    var s1 := Next(s0, Chatter(R));
    var s2 := Next(s1, Deliver(L, Other));
    var s3 := Next(s2, Chatter(L));
    var s4 := Next(s3, Deliver(R, Other));
    assert Other in s1.soup.l && Other in s3.soup.r;
    assert s4.ends == Pair(OPEN, OPEN) && Other in s4.soup.l && Other in s4.soup.r;
    FirstEvent(s3, Deliver(R, Other), []);
    FirstEvent(s2, Chatter(L), [Deliver(R, Other)]);
    FirstEvent(s1, Deliver(L, Other), [Chatter(L)] + [Deliver(R, Other)]);
    FirstEvent(s0, Chatter(R), [Deliver(L, Other)] + ([Chatter(L)] + [Deliver(R, Other)]));
    vs := [Chatter(R)] + ([Deliver(L, Other)] + ([Chatter(L)] + [Deliver(R, Other)]));
  }

  /** And it happens: one repeated data message, arriving in TIME_WAIT, ends the peer's close by reset. */
  lemma ResetCanBreakTheClose() returns (vs: seq<Event>, more: seq<Event>)
    ensures Possible(LOSSY_START, vs) && Undisturbed(vs) && Possible(After(LOSSY_START, vs), more) && Undisturbed(more)
    ensures After(After(LOSSY_START, vs), more).ends.r.release.ByReset?
  {
    vs := OpenRun();
    var s0 := After(LOSSY_START, vs);
    var s1 := Next(s0, UserClose(L));
    var s2 := Next(s1, Deliver(R, Fin));
    var s3 := Next(s2, Deliver(L, FinAck));
    var s4 := Next(s3, Deliver(L, Fin));
    var s5 := Next(s4, Deliver(L, Other));
    FirstEvent(s5, Deliver(R, Rst), []);
    var m5 := [Deliver(R, Rst)];
    FirstEvent(s4, Deliver(L, Other), m5);
    var m4 := [Deliver(L, Other)] + m5;
    FirstEvent(s3, Deliver(L, Fin), m4);
    var m3 := [Deliver(L, Fin)] + m4;
    FirstEvent(s2, Deliver(L, FinAck), m3);
    var m2 := [Deliver(L, FinAck)] + m3;
    FirstEvent(s1, Deliver(R, Fin), m2);
    var m1 := [Deliver(R, Fin)] + m2;
    FirstEvent(s0, UserClose(L), m1);
    more := [UserClose(L)] + m1;
  }

  /** A reset reaches side `i` while it can break off its close. */
  ghost predicate ResetMet(s: Lossy, vs: seq<Event>, i: Side)
    requires Possible(s, vs)
    decreases |vs|
  {
    vs != [] && ((vs[0] == Deliver(i, Rst) && !s.ends.At(i).status.TimeWait?) || ResetMet(Next(s, vs[0]), vs[1..], i))
  }

  /** Nothing happens to a side that is released. */
  lemma {:induction false} ReleasedStays(s: Lossy, vs: seq<Event>, i: Side)
    requires Possible(s, vs) && !s.ends.At(i).release.Held?
    ensures After(s, vs).ends.At(i) == s.ends.At(i) && !ResetMet(s, vs, i)
    decreases |vs|
  {
    if vs != [] { ReleasedStays(Next(s, vs[0]), vs[1..], i); }
  }

  /** One event releases a held side by reset if and only if it brings it a reset outside TIME_WAIT. */
  lemma {:induction false} ReleasedByResetIff(s: Lossy, v: Event, i: Side)
    requires Enabled(s, v) && s.ends.At(i).release.Held?
    ensures Next(s, v).ends.At(i).release.ByReset? <==> v == Deliver(i, Rst) && !s.ends.At(i).status.TimeWait?
  {
  }

  /** Over every run, from any state: a side that is held ends by reset if and only if a reset
      reaches it while it is held and not in TIME_WAIT. */
  lemma {:induction false} EndsByResetIff(s: Lossy, vs: seq<Event>, i: Side)
    requires Possible(s, vs) && s.ends.At(i).release.Held?
    ensures After(s, vs).ends.At(i).release.ByReset? <==> ResetMet(s, vs, i)
    decreases |vs|
  {
    if vs != [] {
      var t := Next(s, vs[0]);
      ReleasedByResetIff(s, vs[0], i);
      if t.ends.At(i).release.Held? { EndsByResetIff(t, vs[1..], i); } else { ReleasedStays(t, vs[1..], i); }
    }
  }

  // ---------------------------------------------------------------- every FIN is answered

  /** What a held endpoint sends on a packet.  Any FIN outside TIME_WAIT, first or repeated, is
      answered by exactly one FIN_ACK, ahead of everything else, and by a FIN as well exactly when
      none has been sent; in TIME_WAIT anything is answered by a reset; nothing else is answered. */
  lemma {:induction false} EveryFinIsAnswered(e: Endpoint, p: Packet)
    requires WellKept(e) && e.release.Held?
    ensures var ps := OnPacket(e, p).1;
            && (p.Fin? && !e.status.TimeWait? ==> 1 <= |ps| <= 2 && ps[0] == FinAck && multiset(ps)[FinAck] == 1)
            && (Fin in ps <==> p.Fin? && e.fins == 0)
            && (Rst in ps <==> e.status.TimeWait?) && (e.status.TimeWait? ==> |ps| == 1)
            && (ps == [] <==> !p.Fin? && !e.status.TimeWait?) && Other !in ps
  {
  }

  /** The answers of a READY peer, taken in order, lead a closing side over FIN_WAIT_2 into TIME_WAIT. */
  lemma {:induction false} AnswersInOrder(e: Endpoint, peer: Endpoint)
    requires e.release.Held? && e.status.FinWait1? && peer.release.Held? && peer.status.Ready?
    ensures var ps := OnPacket(peer, Fin).1;
            |ps| == 2 && Takes(e, ps[..1]).status.FinWait2? && Takes(e, ps).status.TimeWait? && Takes(e, ps).release.Held?
  {
    var ps := OnPacket(peer, Fin).1;
    assert ps == [FinAck, Fin];
    assert ps[..1] == [FinAck] && ps[1..] == [Fin] && [Fin][1..] == [] && [FinAck][1..] == [];
    var d := OnPacket(e, FinAck).0;
    assert Takes(e, ps) == Takes(d, [Fin]);
    assert Takes(e, [FinAck]) == Takes(d, []);
  }

  /** Whether a side's FIN_ACK is lost: the peer has processed the FIN, and the answer is gone. */
  ghost predicate AckIsLost(s: Lossy, i: Side) {
    var e, peer := s.ends.At(i), s.ends.At(i.Peer());
    && e.release.Held? && e.fins == 1 && !e.gotFinAck && peer.release.Held? && peer.gotFin
    && Fin in s.soup.At(i.Peer()) && FinAck !in s.soup.At(i)
  }

  /** The peer's answer to the FIN that is sent again. */
  lemma {:induction false} RepeatedFinIsAnswered(s: Lossy, i: Side)
    requires Safe(s) && AckIsLost(s, i)
    ensures var t := Next(s, Deliver(i.Peer(), Fin));
            && t.ends.At(i) == s.ends.At(i)
            && (FinAck in t.soup.At(i) <==> !s.ends.At(i.Peer()).status.TimeWait?)
            && (s.ends.At(i.Peer()).status.TimeWait? ==> Rst in t.soup.At(i))
  {
    EveryFinIsAnswered(s.ends.At(i.Peer()), Fin);
    assert SafeHalf(s, i) && SafeHalf(s, i.Peer());
  }

  /** A lost FIN_ACK is made up for by the FIN that is sent again, if and only if the peer is not in
      TIME_WAIT: from FIN_WAIT_1 always, into FIN_WAIT_2; from CLOSING into TIME_WAIT and from LAST_ACK
      to a graceful release.  From a peer in TIME_WAIT it brings a reset instead, which ends the close. */
  lemma {:induction false} LostAckIsMadeUpIff(s: Lossy, i: Side)
    requires Safe(s) && AckIsLost(s, i)
    ensures var e, t := s.ends.At(i), Next(s, Deliver(i.Peer(), Fin));
            if s.ends.At(i.Peer()).status.TimeWait? then
              && !e.status.FinWait1? && FinAck !in t.soup.At(i)
              && Enabled(t, Deliver(i, Rst)) && Next(t, Deliver(i, Rst)).ends.At(i).release.ByReset?
            else
              && Enabled(t, Deliver(i, FinAck))
              && var d := Next(t, Deliver(i, FinAck)).ends.At(i);
              && d.gotFinAck && (e.status.FinWait1? ==> d.status.FinWait2? && d.release.Held?)
              && (e.status.Closing? ==> d.status.TimeWait? && d.release.Held?)
              && (e.status.LastAck? ==> d.release.Graceful?)
              && (e.status.FinWait1? || e.status.Closing? || e.status.LastAck?)
  {
    RepeatedFinIsAnswered(s, i);
    assert SafeHalf(s, i) && SafeHalf(s, i.Peer());
  }

  // ---------------------------------------------------------------- a FIN that is dropped

  /** The close is over: released gracefully, or waiting out 2MSL. */
  ghost predicate Over(e: Endpoint) { e.release.Graceful? || (e.release.Held? && e.status.TimeWait?) }

  /** The user of `i` closes, and the FIN is dropped by a full send window. */
  function DroppedClose(s: Lossy, i: Side): Lossy { Sends(s, i, OnClose(s.ends.At(i)).0, []) }

  /** A FIN arrives at `i`; it is acknowledged, but the FIN that answers it is dropped. */
  function DroppedReply(s: Lossy, i: Side): Lossy { Sends(s, i, OnFin(s.ends.At(i)).0, [FinAck]) }

  /** Side `i` has made its FIN, which is nowhere, and nothing that answers it is either. */
  ghost predicate FinIsLost(s: Lossy, i: Side) {
    var e, peer := s.ends.At(i), s.ends.At(i.Peer());
    && e.fins == 1 && Fin !in s.soup.At(i.Peer()) && !peer.gotFin
    && FinAck !in s.soup.At(i) && !e.gotFinAck
  }

  lemma DroppedFinIsLost(s: Lossy, i: Side)
    requires Safe(s) && s.ends.At(i).release.Held? && s.ends.At(i).status.Ready?
    ensures Safe(DroppedClose(s, i)) && FinIsLost(DroppedClose(s, i), i)
    ensures Fin in s.soup.At(i) ==> Safe(DroppedReply(s, i)) && FinIsLost(DroppedReply(s, i), i)
  {
    assert SafeHalf(s, i) && SafeHalf(s, i.Peer());
    var t, u := DroppedClose(s, i), DroppedReply(s, i);
    assert SafeHalf(t, i) && SafeHalf(t, i.Peer());
    if Fin in s.soup.At(i) { assert SafeHalf(u, i) && SafeHalf(u, i.Peer()); }
  }

  lemma LostStaysLost(s: Lossy, v: Event, i: Side)
    requires Safe(s) && FinIsLost(s, i) && Enabled(s, v)
    ensures FinIsLost(Next(s, v), i)
  {
    assert SafeHalf(s, i) && SafeHalf(s, i.Peer());
    assert v.i == i || v.i == i.Peer();
  }

  /** A FIN that was dropped is never made up for, and neither side's close is ever over: in every
      run of the network the side that made it has made no other, and rests, unless a reset
      releases it, in FIN_WAIT_1, CLOSING or LAST_ACK, and its peer never hears of its close. */
  lemma {:induction false} LostFinNeverCloses(s: Lossy, vs: seq<Event>, i: Side)
    requires Safe(s) && FinIsLost(s, i) && Possible(s, vs)
    ensures var u := After(s, vs);
            var e, peer := u.ends.At(i), u.ends.At(i.Peer());
            && FinIsLost(u, i) && !Over(e) && !Over(peer)
            && (e.release.Held? ==> e.status.FinWait1? || e.status.Closing? || e.status.LastAck?)
    decreases |vs|
  {
    if vs == [] {
      assert SafeHalf(s, i) && SafeHalf(s, i.Peer());
    } else {
      NextKeepsSafe(s, vs[0]);
      LostStaysLost(s, vs[0], i);
      LostFinNeverCloses(Next(s, vs[0]), vs[1..], i);
    }
  }

  /** From two new sockets: whenever, in any run, a READY side's FIN is dropped, whether its user
      closes or it answers a FIN, the connection never closes on either side. */
  lemma {:induction false} DroppedFinNeverCloses(vs: seq<Event>, i: Side, reply: bool, more: seq<Event>)
    requires Possible(LOSSY_START, vs)
    requires var s := After(LOSSY_START, vs);
             && s.ends.At(i).release.Held? && s.ends.At(i).status.Ready? && (reply ==> Fin in s.soup.At(i))
             && Possible(if reply then DroppedReply(s, i) else DroppedClose(s, i), more)
    ensures var s := After(LOSSY_START, vs);
            var u := After(if reply then DroppedReply(s, i) else DroppedClose(s, i), more);
            !Over(u.ends.l) && !Over(u.ends.r)
  {
    var s := After(LOSSY_START, vs);
    RunKeepsSafe(LOSSY_START, vs);
    DroppedFinIsLost(s, i);
    LostFinNeverCloses(if reply then DroppedReply(s, i) else DroppedClose(s, i), more, i);
    assert i == L || i == R;
  }

  // ---------------------------------------------------------------- termination: exactly-once delivery

  /** `bag.At(i)`: packets on their way to `i`, each delivered once, in any order.
      `declined.At(i)`: the 2MSL timer of `i` has fired and its user did not give his leave. */
  datatype Exact = Exact(ends: Pair<Endpoint>, bag: Pair<multiset<Packet>>, declined: Pair<bool>)

  datatype Move = Shut(i: Side) | Arrive(i: Side, p: Packet) | Elapse(i: Side, keep: bool)

  /** A close that has an effect, an arrival, or the end of a 2MSL wait. */
  predicate CanMove(s: Exact, m: Move) {
    var e := s.ends.At(m.i);
    match m
    case Shut(_) => e.release.Held? && e.status.Ready?
    case Arrive(i, p) => p in s.bag.At(i)
    case Elapse(i, _) => e.release.Held? && e.status.TimeWait? && !s.declined.At(i)
  }

  function Moved(s: Exact, m: Move): Exact
    requires CanMove(s, m)
  {
    var i, e := m.i, s.ends.At(m.i);
    match m
    case Shut(_) => s.(ends := s.ends.With(i, OnClose(e).0), bag := s.bag.With(i.Peer(), s.bag.At(i.Peer()) + multiset(OnClose(e).1)))
    case Arrive(_, p) =>
      var rest := s.bag.With(i, s.bag.At(i) - multiset{p});
      if !e.release.Held? then s.(bag := rest)  // nobody there
      else s.(ends := s.ends.With(i, OnPacket(e, p).0), bag := rest.With(i.Peer(), rest.At(i.Peer()) + multiset(OnPacket(e, p).1)))
    case Elapse(_, keep) => s.(ends := s.ends.With(i, OnTimer(e, keep)), declined := s.declined.With(i, !keep))
  }

  function Bit(b: bool): nat { if b then 1 else 0 }

  /** Every FIN and FIN_ACK made is either on its way or processed, and nothing else is on its way. */
  ghost predicate Accounted(s: Exact, i: Side) {
    var e, peer, bag := s.ends.At(i), s.ends.At(i.Peer()), s.bag.At(i);
    && WellKept(e) && !e.status.Close? && !e.release.ByReset?
    && bag[Fin] + Bit(e.gotFin) == peer.fins
    && bag[FinAck] + Bit(e.gotFinAck) == Bit(peer.gotFin)
    && bag[Rst] == 0 && bag[Other] == 0
    && (s.declined.At(i) ==> e.release.Held? && e.status.TimeWait?)
  }

  ghost predicate Orderly(s: Exact) { Accounted(s, L) && Accounted(s, R) }

  const OPEN := FRESH.(status := Ready)
  const EXACT_START := Exact(Pair(OPEN, OPEN), Pair(multiset{}, multiset{}), Pair(false, false))

  lemma MovedKeepsOrderly(s: Exact, m: Move)
    requires Orderly(s) && CanMove(s, m)
    ensures Orderly(Moved(s, m))
  {
    assert Accounted(s, m.i) && Accounted(s, m.i.Peer());
    match m
    case Shut(i) =>
    case Arrive(i, p) => ArriveKeepsOrderly(s, i, p);
    case Elapse(i, _) =>
  }

  /** What arrives is a first FIN or a first FIN_ACK, and somebody is there to take it. */
  lemma ArrivedIsFirst(s: Exact, i: Side, p: Packet)
    requires Orderly(s) && CanMove(s, Arrive(i, p))
    ensures var e := s.ends.At(i);
            && e.release.Held? && !e.status.TimeWait? && !e.status.CloseWait?
            && ((p.Fin? && !e.gotFin) || (p.FinAck? && !e.gotFinAck && e.fins == 1))
  {
    assert Accounted(s, i) && Accounted(s, i.Peer());
    assert s.bag.At(i)[p] > 0;
  }

  /** The parts of the state after an arrival at a held endpoint. */
  lemma {:induction false} ArrivedParts(s: Exact, i: Side, p: Packet)
    requires CanMove(s, Arrive(i, p)) && s.ends.At(i).release.Held?
    ensures var t, j := Moved(s, Arrive(i, p)), i.Peer();
            var (d, ps) := OnPacket(s.ends.At(i), p);
            && t.ends.At(i) == d && t.ends.At(j) == s.ends.At(j) && t.declined == s.declined
            && t.bag.At(i) == s.bag.At(i) - multiset{p} && t.bag.At(j) == s.bag.At(j) + multiset(ps)
  {
  }

  lemma ArriveKeepsOrderly(s: Exact, i: Side, p: Packet)
    requires Orderly(s) && CanMove(s, Arrive(i, p))
    ensures Orderly(Moved(s, Arrive(i, p)))
  {
    assert Accounted(s, i) && Accounted(s, i.Peer());
    ArrivedIsFirst(s, i, p);
    ControlPacketEffect(s.ends.At(i), p);
    ArrivedParts(s, i, p);
    assert Accounted(Moved(s, Arrive(i, p)), i);
    assert Accounted(Moved(s, Arrive(i, p)), i.Peer());
  }

  /** The exact effect of a first FIN or a first FIN_ACK. */
  lemma {:induction false} ControlPacketEffect(e: Endpoint, p: Packet)
    requires WellKept(e) && e.release.Held? && !e.status.Close?
    requires (p.Fin? && !e.gotFin) || (p.FinAck? && !e.gotFinAck && e.fins == 1)
    ensures var (d, ps) := OnPacket(e, p);
            && WellKept(d) && !d.status.Close? && !d.release.ByReset?
            && Bit(d.gotFin) == Bit(e.gotFin) + Bit(p.Fin?) && Bit(d.gotFinAck) == Bit(e.gotFinAck) + Bit(p.FinAck?)
            && multiset(ps)[Fin] == d.fins - e.fins && multiset(ps)[FinAck] == Bit(p.Fin?)
            && multiset(ps)[Rst] == 0 && multiset(ps)[Other] == 0
  {
  }

  /** Work an endpoint may still cause, and work on its way. */
  ghost function Potential(e: Endpoint, declined: bool): nat {
    if !e.release.Held? then 0 else
    match e.status
    case Close | Ready | CloseWait => 4
    case FinWait1 | FinWait2 | Closing => 1
    case TimeWait => if declined then 0 else 1
    case LastAck => 0
  }

  ghost function Load(bag: multiset<Packet>): nat { 2 * bag[Fin] + bag[FinAck] }

  ghost function Measure(s: Exact): nat {
    Potential(s.ends.l, s.declined.l) + Potential(s.ends.r, s.declined.r) + Load(s.bag.l) + Load(s.bag.r)
  }

  /** A control packet costs more than what its receiver does about it. */
  lemma {:induction false} PacketPaysForItself(e: Endpoint, p: Packet, declined: bool)
    requires e.release.Held? && !e.status.TimeWait? && !e.status.CloseWait? && (p.Fin? || p.FinAck?)
    ensures var (d, ps) := OnPacket(e, p);
            Potential(d, declined) + Load(multiset(ps)) < Potential(e, declined) + Load(multiset{p})
  {
  }

  lemma MoveLowersMeasure(s: Exact, m: Move)
    requires Orderly(s) && CanMove(s, m)
    ensures Measure(Moved(s, m)) < Measure(s)
  {
    match m
    case Shut(i) =>
      var e := s.ends.At(i);
      assert OnClose(e) == (e.(status := FinWait1, fins := e.fins + 1), [Fin]);
    case Arrive(i, p) => ArriveLowersMeasure(s, i, p);
    case Elapse(_, _) =>
  }

  lemma MeasureAt(s: Exact, i: Side)
    ensures Measure(s) == Potential(s.ends.At(i), s.declined.At(i)) + Potential(s.ends.At(i.Peer()), s.declined.At(i.Peer()))
                          + Load(s.bag.At(i)) + Load(s.bag.At(i.Peer()))
  {
  }

  lemma ArriveLowersMeasure(s: Exact, i: Side, p: Packet)
    requires Orderly(s) && CanMove(s, Arrive(i, p))
    ensures Measure(Moved(s, Arrive(i, p))) < Measure(s)
  {
    ArrivedIsFirst(s, i, p);
    PacketPaysForItself(s.ends.At(i), p, s.declined.At(i));
    LoadSplits(s.bag.At(i), p);
    LoadAdds(s.bag.At(i.Peer()), multiset(OnPacket(s.ends.At(i), p).1));
    ArrivedParts(s, i, p);
    MeasureAt(s, i);
    MeasureAt(Moved(s, Arrive(i, p)), i);
  }

  lemma LoadSplits(bag: multiset<Packet>, p: Packet)
    requires p in bag
    ensures Load(bag - multiset{p}) + Load(multiset{p}) == Load(bag)
  {
  }

  lemma LoadAdds(a: multiset<Packet>, b: multiset<Packet>)
    ensures Load(a + b) == Load(a) + Load(b)
  {
  }

  ghost predicate Playable(s: Exact, ms: seq<Move>)
    decreases |ms|
  {
    ms == [] || (CanMove(s, ms[0]) && Playable(Moved(s, ms[0]), ms[1..]))
  }

  ghost function Played(s: Exact, ms: seq<Move>): Exact
    requires Playable(s, ms)
    decreases |ms|
  {
    if ms == [] then s else Played(Moved(s, ms[0]), ms[1..])
  }

  lemma {:induction false} RunIsBounded(s: Exact, ms: seq<Move>)
    requires Orderly(s) && Playable(s, ms)
    ensures Orderly(Played(s, ms)) && |ms| + Measure(Played(s, ms)) <= Measure(s)
    decreases |ms|
  {
    if ms != [] {
      MovedKeepsOrderly(s, ms[0]);
      MoveLowersMeasure(s, ms[0]);
      RunIsBounded(Moved(s, ms[0]), ms[1..]);
    }
  }

  ghost predicate Started(s: Exact) { s.ends.l.fins + s.ends.r.fins > 0 }

  /** With nothing left on its way, a close that was started on either side is over on both. */
  lemma SilenceMeansOver(s: Exact)
    requires Orderly(s) && Started(s) && s.bag == Pair(multiset{}, multiset{})
    ensures Over(s.ends.l) && Over(s.ends.r)
  {
    assert Accounted(s, L) && Accounted(s, R);
  }

  /** Every run from an open connection takes at most eight moves; when the network is empty after
      a close was started, both sides are in TIME_WAIT or released; and when no move is left at
      all, a side is released if and only if its user did not decline at the end of the 2MSL
      wait, and rests in TIME_WAIT otherwise.  No run sends a reset. */
  lemma {:induction false} EveryCloseCompletes(ms: seq<Move>)
    requires Playable(EXACT_START, ms)
    ensures |ms| <= 8
    ensures var s := Played(EXACT_START, ms);
            && s.bag.l[Rst] == 0 && s.bag.r[Rst] == 0
            && (Started(s) && s.bag == Pair(multiset{}, multiset{}) ==> Over(s.ends.l) && Over(s.ends.r))
            && (Started(s) && (forall m :: !CanMove(s, m)) ==> Ended(s, L) && Ended(s, R))
  {
    RunIsBounded(EXACT_START, ms);
    var s := Played(EXACT_START, ms);
    assert Accounted(s, L) && Accounted(s, R);
    if Started(s) && forall m :: !CanMove(s, m) { NoMoveMeansEnded(s); }
    if Started(s) && s.bag == Pair(multiset{}, multiset{}) { SilenceMeansOver(s); }
  }

  /** Released, or left in TIME_WAIT by a user who declined. */
  ghost predicate Ended(s: Exact, i: Side) {
    var e := s.ends.At(i);
    && (e.release.Graceful? <==> !s.declined.At(i))
    && (s.declined.At(i) ==> e.release.Held? && e.status.TimeWait?)
  }

  lemma NoMoveMeansEnded(s: Exact)
    requires Orderly(s) && Started(s) && forall m :: !CanMove(s, m)
    ensures Ended(s, L) && Ended(s, R)
  {
    forall i: Side, p: Packet ensures s.bag.At(i)[p] == 0 {
      assert !CanMove(s, Arrive(i, p));
    }
    assert s.bag.At(L) == multiset{} && s.bag.At(R) == multiset{};
    SilenceMeansOver(s);
    assert !CanMove(s, Elapse(L, true)) && !CanMove(s, Elapse(R, true));
    assert Accounted(s, L) && Accounted(s, R);
  }
}
