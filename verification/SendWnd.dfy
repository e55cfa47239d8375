/** The send window of common/SendWnd.cpp over the priority queue, for a window with a
    transmission limit.

    `Wnd` is the window with a record of what happened: the callbacks made to the socket,
    the first sends, the messages that left the window otherwise than by an ack, and, ack by
    ack, whether it was in order.
    The map of messages in flight is an unordered map in the code, so the element its
    `begin()` yields is any element; it is a parameter (`pick`) of an ack here.
 */
module SendWnd {
  import opened Bytes
  import opened Common
  import opened PriorityQueue

  const QUICK_RESEND := 3     // __quick_resend_limit

  type Id = Uint16

  /** The 16-bit `++` and `--`. */
  function Inc(x: Id): Id { if x == 0xFFFF then 0 else x + 1 }

  function Dec(x: Id): Id { if x == 0 then 0xFFFF else x - 1 }

  /** A message with the id it was sent under. */
  datatype Sending = Sending(id: Id, msg: Msg)

  /** Callbacks to the socket: ToSend and AckDone. */
  datatype Event = Sent(s: Sending) | Done(msg: Msg)

  datatype Wnd = Wnd(
    size: Id, cur: Id, flight: map<Id, Msg>, start: Option<Sending>, outOfOrder: Id, lastId: Id, queue: Queues,
    sendQ: seq<Sending>, ackQ: seq<Msg>,
    log: seq<Event>, launched: seq<Sending>, overwritten: seq<Msg>, dropped: seq<Msg>, accepted: seq<Msg>,
    acks: seq<bool>)

  // ---------------------------------------------------------------- what a call does

  ghost function Sents(s: seq<Sending>): seq<Event> {
    if s == [] then [] else [Sent(s[0])] + Sents(s[1..])
  }

  ghost function Dones(s: seq<Msg>): seq<Event> {
    if s == [] then [] else [Done(s[0])] + Dones(s[1..])
  }

  /** There is a start message exactly when something is in flight. */
  ghost predicate StartFits(w: Wnd) { w.start.None? <==> w.flight == map[] }

  /** SendAndAck: all pending sends go out, then all pending acks are reported. */
  ghost function Flushed(w: Wnd): Wnd {
    w.(log := w.log + Sents(w.sendQ) + Dones(w.ackQ), sendQ := [], ackQ := [])
  }

  /** SetId: the message now has an id. */
  function WithId(msg: Msg): Msg { msg.(flag := msg.flag.(withoutId := false)) }

  /** A message enters the flight under the next id; a message still there under that id is overwritten. */
  ghost function Entered(w: Wnd, msg: Msg): Wnd {
    var s := Sending(Inc(w.lastId), WithId(msg));
    w.(lastId := s.id, cur := Inc(w.cur), flight := w.flight[s.id := s.msg],
       start := if w.start.None? then Some(s) else w.start,
       sendQ := w.sendQ + [s], launched := w.launched + [s],
       overwritten := w.overwritten + if s.id in w.flight then [w.flight[s.id]] else [])
  }

  ghost function Launched(w: Wnd, msg: Msg): Wnd { Flushed(Entered(w, msg)) }

  ghost function Backlog(q: Queues): nat
    requires Valid(q)
  {
    |q.q[0]| + |q.q[1]| + |q.q[2]| + |q.q[3]|
  }

  /** SendNext: launch waiting messages while the window has room. */
  ghost function Filled(w: Wnd): Wnd
    requires Valid(w.queue)
    decreases Backlog(w.queue)
  {
    PopTakesAFront(w.queue);
    var (msg, q) := Popped(w.queue);
    if w.cur >= w.size then w
    else if msg.None? then w.(queue := q)
    else Filled(Launched(w.(queue := q), msg.value))
  }

  /** PushBack. */
  ghost function Added(w: Wnd, msg: Msg): Wnd
    requires Valid(w.queue)
  {
    if !msg.flag.withoutId then w
    else
      var v := w.(accepted := w.accepted + [msg]);
      if w.cur >= w.size then
        v.(queue := Pushed(w.queue, msg), dropped := w.dropped + if LevelOf(msg.flag).None? then [msg] else [])
      else Launched(v, msg)
  }

  /** AcceptAck up to its SendNext: the message leaves the flight; every third ack out of order
      queues the new start message for a quick resend. */
  ghost function Retired(w: Wnd, id: Id, pick: Id): Wnd
    requires id in w.flight && (w.flight - {id} != map[] ==> pick in w.flight - {id})
  {
    var rest := w.flight - {id};
    var start := if rest == map[] then None else Some(Sending(pick, rest[pick]));
    var inOrder := w.start.Some? && w.start.value.msg == w.flight[id];
    var ooo: Id := if inOrder then 0 else Inc(w.outOfOrder);
    var resend := ooo >= QUICK_RESEND && start.Some?;
    w.(flight := rest, cur := Dec(w.cur), start := start, outOfOrder := if resend then 0 else ooo,
       ackQ := w.ackQ + [w.flight[id]], sendQ := w.sendQ + (if resend then [start.value] else []),
       acks := w.acks + [inOrder])
  }

  ghost function Acked(w: Wnd, id: Id, pick: Id): Wnd
    requires Valid(w.queue) && (id in w.flight && w.flight - {id} != map[] ==> pick in w.flight - {id})
  {
    if id !in w.flight then w else Flushed(Filled(Retired(w, id, pick)))
  }

  /** ChangeSendWndSize. */
  ghost function Resized(w: Wnd, size: Id): Wnd
    requires Valid(w.queue)
  {
    if w.size == size then w else Flushed(Filled(w.(size := size)))
  }

  lemma LaunchKeepsStart(w: Wnd, msg: Msg)
    requires StartFits(w)
    ensures StartFits(Launched(w, msg))
  {
    var id: Id := Inc(w.lastId);
    assert id in Launched(w, msg).flight;
  }

  /** The key of the element that `begin()` of an unordered map yields: any key. */
  method AnyKey(m: map<Id, Msg>) returns (k: Id)
    requires m != map[]
    ensures k in m
  {
    assert exists k :: k in m.Keys;
    k :| k in m;
  }

  // ---------------------------------------------------------------- the window as written

  class SendWindow {
    var sendWndSize: Id
    var curSendSize: Id
    var idMsgMap: map<Id, Msg>
    var start: Option<Sending>
    var outOfOrderCount: Id
    var incrementalId: Id
    const priorityQueue: PriorityQueue
    var sendQueue: seq<Sending>
    var ackQueue: seq<Msg>
    var socket: seq<Event>       // callbacks made
    ghost var launched: seq<Sending>
    ghost var overwritten: seq<Msg>
    ghost var dropped: seq<Msg>
    ghost var accepted: seq<Msg>
    ghost var acks: seq<bool>

    ghost function View(): Wnd
      reads this, priorityQueue
    {
      Wnd(sendWndSize, curSendSize, idMsgMap, start, outOfOrderCount, incrementalId, priorityQueue.View(),
          sendQueue, ackQueue, socket, launched, overwritten, dropped, accepted, acks)
    }

    constructor (size: Id, firstId: Id, queue: PriorityQueue)
      requires queue.Ready() && AllEmpty(queue.View())
      ensures priorityQueue == queue && View() == Wnd(size, 0, map[], None, 0, firstId, queue.View(), [], [], [], [], [], [], [], [])
    {
      sendWndSize, curSendSize, idMsgMap, start, outOfOrderCount, incrementalId := size, 0, map[], None, 0, firstId;
      priorityQueue := queue;
      sendQueue, ackQueue, socket, launched, overwritten, dropped, accepted, acks := [], [], [], [], [], [], [], [];
    }

    method SendAndAck()
      modifies this`sendQueue, this`ackQueue, this`socket
      ensures View() == Flushed(old(View()))
    {
      ReportSends();
      ReportAcks();
    }

    method ReportSends()
      modifies this`sendQueue, this`socket
      ensures sendQueue == [] && socket == old(socket + Sents(sendQueue))
    {
      while sendQueue != []
        invariant socket + Sents(sendQueue) == old(socket + Sents(sendQueue))
        decreases |sendQueue|
      {
        var item := sendQueue[0];
        assert (socket + [Sent(item)]) + Sents(sendQueue[1..]) == socket + Sents(sendQueue);
        sendQueue := sendQueue[1..];
        socket := socket + [Sent(item)];
      }
    }

    method ReportAcks()
      modifies this`ackQueue, this`socket
      ensures ackQueue == [] && socket == old(socket + Dones(ackQueue))
    {
      while ackQueue != []
        invariant socket + Dones(ackQueue) == old(socket + Dones(ackQueue))
        decreases |ackQueue|
      {
        var item := ackQueue[0];
        assert (socket + [Done(item)]) + Dones(ackQueue[1..]) == socket + Dones(ackQueue);
        ackQueue := ackQueue[1..];
        socket := socket + [Done(item)];
      }
    }

    /** PushBackToSendWnd up to its callbacks: give the message the next id and put it in flight. */
    method Enter(msg: Msg)
      requires start.None? <==> idMsgMap == map[]
      modifies this`incrementalId, this`overwritten, this`idMsgMap, this`start, this`sendQueue, this`launched, this`curSendSize
      ensures incrementalId == Inc(old(incrementalId)) && curSendSize == Inc(old(curSendSize))
      ensures idMsgMap == old(idMsgMap)[incrementalId := WithId(msg)]
      ensures start == if old(start).None? then Some(Sending(incrementalId, WithId(msg))) else old(start)
      ensures sendQueue == old(sendQueue) + [Sending(incrementalId, WithId(msg))]
      ensures launched == old(launched) + [Sending(incrementalId, WithId(msg))]
      ensures overwritten == old(overwritten) + if incrementalId in old(idMsgMap) then [old(idMsgMap)[incrementalId]] else []
    {
      incrementalId := Inc(incrementalId);
      var s := Sending(incrementalId, WithId(msg));
      overwritten := overwritten + if s.id in idMsgMap then [idMsgMap[s.id]] else [];
      AddToEnd(s);
      sendQueue := sendQueue + [s];
      launched := launched + [s];
      curSendSize := Inc(curSendSize);
    }

    method AddToEnd(s: Sending)
      requires start.None? <==> idMsgMap == map[]
      modifies this`idMsgMap, this`start
      ensures idMsgMap == old(idMsgMap)[s.id := s.msg] && start == if old(start).None? then Some(s) else old(start)
    {
      idMsgMap := idMsgMap[s.id := s.msg];
      assert s.id in idMsgMap;
      if start.None? {
        var k := AnyKey(idMsgMap);  // begin() of a map that holds the new message alone
        start := Some(Sending(k, idMsgMap[k]));
      }
    }

    /** An ack of the start message is in order. */
    method NoteOrder(msg: Msg)
      modifies this`outOfOrderCount
      ensures outOfOrderCount == if start.Some? && start.value.msg == msg then 0 else Inc(old(outOfOrderCount))
    {
      if start.Some? && msg == start.value.msg {
        outOfOrderCount := 0;
      } else {
        outOfOrderCount := Inc(outOfOrderCount);
      }
    }

    method QuickResend()
      modifies this`outOfOrderCount, this`sendQueue
      ensures var resend := old(outOfOrderCount) >= QUICK_RESEND && start.Some?;
        && outOfOrderCount == (if resend then 0 else old(outOfOrderCount))
        && sendQueue == old(sendQueue) + if resend then [start.value] else []
    {
      if outOfOrderCount >= QUICK_RESEND && start.Some? {
        sendQueue := sendQueue + [start.value];
        outOfOrderCount := 0;
      }
    }

    /** The start message is chosen anew. */
    method NewStart() returns (ghost pick: Id)
      modifies this`start
      ensures idMsgMap != map[] ==> pick in idMsgMap
      ensures start == if idMsgMap == map[] then None else Some(Sending(pick, idMsgMap[pick]))
    {
      pick := 0;
      if idMsgMap != map[] {
        var k := AnyKey(idMsgMap);  // begin()
        pick := k;
        start := Some(Sending(k, idMsgMap[k]));
      } else {
        start := None;
      }
    }

    method PushBackToSendWnd(msg: Msg)
      requires StartFits(View())
      modifies this
      ensures StartFits(View()) && View() == Launched(old(View()), msg)
    {
      LaunchKeepsStart(View(), msg);
      Enter(msg);
      assert View() == Entered(old(View()), msg);
      SendAndAck();
    }

    method SendNext()
      requires priorityQueue.Ready() && StartFits(View())
      modifies this, priorityQueue
      ensures priorityQueue.Ready() && StartFits(View()) && View() == Filled(old(View()))
    {
      while curSendSize < sendWndSize
        invariant priorityQueue.Ready() && StartFits(View())
        invariant Filled(View()) == Filled(old(View()))
        decreases Backlog(priorityQueue.View())
      {
        PopTakesAFront(priorityQueue.View());
        var temp := priorityQueue.Pop();
        if temp.Some? {
          PushBackToSendWnd(temp.value);
        } else {
          break;
        }
      }
    }

    method PushBack(msg: Msg)
      requires priorityQueue.Ready() && StartFits(View())
      modifies this, priorityQueue
      ensures priorityQueue.Ready() && StartFits(View()) && View() == Added(old(View()), msg)
    {
      if !msg.flag.withoutId {
        return;
      }
      accepted := accepted + [msg];
      if curSendSize >= sendWndSize {
        dropped := dropped + if LevelOf(msg.flag).None? then [msg] else [];
        priorityQueue.PushBack(msg);
      } else {
        PushBackToSendWnd(msg);
      }
    }

    /** Returns the estimated size of the message acked, or 0 for a repeated ack; `estimate` is
        the size of a message as it is now. */
    method AcceptAck(id: Id, estimate: Msg -> Uint32) returns (size: Uint32, ghost pick: Id)
      requires priorityQueue.Ready() && StartFits(View())
      modifies this, priorityQueue
      ensures priorityQueue.Ready() && StartFits(View())
      ensures size == if id in old(idMsgMap) then estimate(old(idMsgMap)[id]) else 0
      ensures id in old(idMsgMap) && old(idMsgMap) - {id} != map[] ==> pick in old(idMsgMap) - {id}
      ensures View() == Acked(old(View()), id, pick)
    {
      pick := 0;
      if id !in idMsgMap {
        return 0, pick;
      }
      size := estimate(idMsgMap[id]);
      pick := Retire(id);
      assert View() == Retired(old(View()), id, pick);
      SendNext();
      SendAndAck();
    }

    /** AcceptAck up to its SendNext. */
    method Retire(id: Id) returns (ghost pick: Id)
      requires id in idMsgMap
      modifies this`outOfOrderCount, this`ackQueue, this`curSendSize, this`idMsgMap, this`start, this`sendQueue, this`acks
      ensures idMsgMap == old(idMsgMap) - {id} && curSendSize == Dec(old(curSendSize))
      ensures idMsgMap != map[] ==> pick in idMsgMap
      ensures start == if idMsgMap == map[] then None else Some(Sending(pick, idMsgMap[pick]))
      ensures ackQueue == old(ackQueue) + [old(idMsgMap)[id]]
      ensures var inOrder := old(start).Some? && old(start).value.msg == old(idMsgMap)[id];
        var ooo := if inOrder then 0 else Inc(old(outOfOrderCount));
        var resend := ooo >= QUICK_RESEND && start.Some?;
        && acks == old(acks) + [inOrder] && outOfOrderCount == (if resend then 0 else ooo)
        && sendQueue == old(sendQueue) + if resend then [start.value] else []
    {
      var msg := idMsgMap[id];
      acks := acks + [start.Some? && start.value.msg == msg];
      NoteOrder(msg);
      ackQueue := ackQueue + [msg];
      curSendSize := Dec(curSendSize);
      idMsgMap := idMsgMap - {id};
      pick := NewStart();
      QuickResend();
    }

    method ChangeSendWndSize(size: Id)
      requires priorityQueue.Ready() && StartFits(View())
      modifies this, priorityQueue
      ensures priorityQueue.Ready() && StartFits(View()) && View() == Resized(old(View()), size)
    {
      if sendWndSize == size {
        return;
      }
      sendWndSize := size;
      SendNext();
      SendAndAck();
    }
  }

  // ---------------------------------------------------------------- the window count and work conservation

  /** Holds at every point: the count is the messages in flight plus those overwritten. */
  ghost predicate Counted(w: Wnd) {
    Valid(w.queue) && StartFits(w) && w.cur == |w.flight| + |w.overwritten|
  }

  /** Holds between calls: nothing is pending, and nothing waits while the window has room. */
  ghost predicate Settled(w: Wnd) {
    Counted(w) && w.sendQ == [] && w.ackQ == [] && (w.cur < w.size ==> AllEmpty(w.queue))
  }

  lemma LaunchCounts(w: Wnd, msg: Msg)
    requires Counted(w) && w.cur < w.size
    ensures Counted(Launched(w, msg)) && Launched(w, msg).cur == w.cur + 1
  {
    LaunchKeepsStart(w, msg);
  }

  lemma {:induction false} FillCounts(w: Wnd)
    requires Counted(w)
    ensures var r := Filled(w);
            Counted(r) && r.size == w.size && (r.cur < r.size ==> AllEmpty(r.queue)) && w.cur <= r.cur && (r.cur <= r.size || r.cur == w.cur)
    decreases Backlog(w.queue)
  {
    PopTakesAFront(w.queue);
    var (msg, q) := Popped(w.queue);
    if w.cur < w.size && msg.Some? {
      LaunchCounts(w.(queue := q), msg.value);
      FillCounts(Launched(w.(queue := q), msg.value));
    }
  }

  lemma RetireCounts(w: Wnd, id: Id, pick: Id)
    requires Counted(w) && id in w.flight && (w.flight - {id} != map[] ==> pick in w.flight - {id})
    ensures Counted(Retired(w, id, pick)) && Retired(w, id, pick).cur == w.cur - 1
  {
    var rest := w.flight - {id};
    assert w.flight == rest[id := w.flight[id]];
  }

  /** A call on the window; `pick` is what the map's begin() yields. */
  datatype Op = Push(msg: Msg) | Ack(id: Id, pick: Id) | Resize(size: Id)

  ghost predicate Legal(w: Wnd, op: Op) {
    op.Ack? && op.id in w.flight && w.flight - {op.id} != map[] ==> op.pick in w.flight - {op.id}
  }

  ghost function Next(w: Wnd, op: Op): Wnd
    requires Valid(w.queue) && Legal(w, op)
  {
    match op
    case Push(msg) => Added(w, msg)
    case Ack(id, pick) => Acked(w, id, pick)
    case Resize(size) => Resized(w, size)
  }

  /** Every call leaves the window settled and raises the count no further than the window allows. */
  lemma NextSettles(w: Wnd, op: Op)
    requires Settled(w) && Legal(w, op)
    ensures Settled(Next(w, op))
    ensures Next(w, op).cur <= Next(w, op).size || Next(w, op).cur <= w.cur
  {
    match op
    case Push(msg) =>
      if w.cur < w.size { LaunchCounts(w.(accepted := w.accepted + [msg]), msg); }
    case Ack(id, pick) =>
      if id in w.flight {
        RetireCounts(w, id, pick);
        FillCounts(Retired(w, id, pick));
      }
    case Resize(size) => FillCounts(w.(size := size));
  }

  // ---------------------------------------------------------------- conservation

  ghost function Is(msg: Msg, t: nat): nat { if msg.tag == t then 1 else 0 }

  ghost function In(s: seq<Msg>, t: nat): nat {
    if s == [] then 0 else Is(s[0], t) + In(s[1..], t)
  }

  lemma {:induction false} InAdds(a: seq<Msg>, b: seq<Msg>, t: nat)
    ensures In(a + b, t) == In(a, t) + In(b, t)
  {
    if a == [] {
      assert a + b == b;
    } else {
      InAdds(a[1..], b, t);
      assert (a + b)[1..] == a[1..] + b;
    }
  }

  lemma {:induction false} InAppends(a: seq<Msg>, msg: Msg, t: nat)
    ensures In(a + [msg], t) == In(a, t) + Is(msg, t)
  {
    InAdds(a, [msg], t);
  }

  ghost function Msgs(s: seq<Sending>): (r: seq<Msg>)
    ensures |r| == |s| && forall i :: 0 <= i < |s| ==> r[i] == s[i].msg
  {
    seq(|s|, i requires 0 <= i < |s| => s[i].msg)
  }

  ghost function Waiting(q: Queues, t: nat): nat
    requires Valid(q)
  {
    In(q.q[0], t) + In(q.q[1], t) + In(q.q[2], t) + In(q.q[3], t)
  }

  ghost function KeysOf(m: map<Id, Msg>, t: nat): set<Id> { set k | k in m && m[k].tag == t }

  ghost function Flying(m: map<Id, Msg>, t: nat): nat { |KeysOf(m, t)| }

  lemma CardWithout(s: set<Id>, k: Id)
    ensures |s| == |s - {k}| + if k in s then 1 else 0
  {
  }

  lemma FlightPut(m: map<Id, Msg>, k: Id, msg: Msg, t: nat)
    ensures Flying(m[k := msg], t) + (if k in m then Is(m[k], t) else 0) == Flying(m, t) + Is(msg, t)
  {
    var n := m[k := msg];
    OtherKeysStay(m, k, msg, t);
    CardWithout(KeysOf(m, t), k);
    CardWithout(KeysOf(n, t), k);
  }

  lemma OtherKeysStay(m: map<Id, Msg>, k: Id, msg: Msg, t: nat)
    ensures KeysOf(m, t) - {k} == KeysOf(m[k := msg], t) - {k}
  {
    var n := m[k := msg];
    forall x ensures x in KeysOf(m, t) - {k} <==> x in KeysOf(n, t) - {k} {
      if x != k { assert (x in m) == (x in n); }
    }
  }

  lemma FlightDrop(m: map<Id, Msg>, k: Id, t: nat)
    requires k in m
    ensures Flying(m - {k}, t) + Is(m[k], t) == Flying(m, t)
  {
    FlightPut(m - {k}, k, m[k], t);
    assert (m - {k})[k := m[k]] == m;
  }

  ghost function Finished(log: seq<Event>, t: nat): nat {
    if log == [] then 0 else (if log[0].Done? then Is(log[0].msg, t) else 0) + Finished(log[1..], t)
  }

  lemma {:induction false} FinishedAdds(a: seq<Event>, b: seq<Event>, t: nat)
    ensures Finished(a + b, t) == Finished(a, t) + Finished(b, t)
  {
    if a == [] {
      assert a + b == b;
    } else {
      FinishedAdds(a[1..], b, t);
      assert (a + b)[1..] == a[1..] + b;
    }
  }

  lemma {:induction false} SentsFinishNone(s: seq<Sending>, t: nat)
    ensures Finished(Sents(s), t) == 0
  {
    if s != [] { SentsFinishNone(s[1..], t); }
  }

  lemma {:induction false} DonesFinish(s: seq<Msg>, t: nat)
    ensures Finished(Dones(s), t) == In(s, t)
  {
    if s != [] { DonesFinish(s[1..], t); }
  }

  /** An accepted message waits, has been launched, or was dropped for want of a priority. */
  ghost predicate Tracked(w: Wnd, t: nat) {
    Valid(w.queue) && Waiting(w.queue, t) + In(Msgs(w.launched), t) + In(w.dropped, t) == In(w.accepted, t)
  }

  /** A launched message is in flight, has been or is about to be reported acked, or was overwritten. */
  ghost predicate Landed(w: Wnd, t: nat) {
    Flying(w.flight, t) + Finished(w.log, t) + In(w.ackQ, t) + In(w.overwritten, t) == In(Msgs(w.launched), t)
  }

  lemma FlushLands(w: Wnd, t: nat)
    requires Landed(w, t)
    ensures Landed(Flushed(w), t)
  {
    FinishedAdds(w.log + Sents(w.sendQ), Dones(w.ackQ), t);
    FinishedAdds(w.log, Sents(w.sendQ), t);
    SentsFinishNone(w.sendQ, t);
    DonesFinish(w.ackQ, t);
  }

  lemma {:induction false} EnterBalances(w: Wnd, msg: Msg, t: nat)
    requires Landed(w, t)
    ensures Landed(Entered(w, msg), t)
    ensures In(Msgs(Entered(w, msg).launched), t) == In(Msgs(w.launched), t) + Is(msg, t)
  {
    var s := Sending(Inc(w.lastId), WithId(msg));
    FlightPut(w.flight, s.id, s.msg, t);
    assert Msgs(w.launched + [s]) == Msgs(w.launched) + [s.msg];
    InAppends(Msgs(w.launched), s.msg, t);
    if s.id in w.flight { InAppends(w.overwritten, w.flight[s.id], t); } else { assert w.overwritten + [] == w.overwritten; }
  }

  lemma {:induction false} LaunchBalances(w: Wnd, msg: Msg, t: nat)
    requires Landed(w, t)
    ensures Landed(Launched(w, msg), t)
    ensures In(Msgs(Launched(w, msg).launched), t) == In(Msgs(w.launched), t) + Is(msg, t)
  {
    EnterBalances(w, msg, t);
    FlushLands(Entered(w, msg), t);
  }

  lemma {:induction false} PopWaits(q: Queues, t: nat)
    requires Valid(q)
    ensures var (msg, r) := Popped(q);
            Valid(r) && Waiting(q, t) == Waiting(r, t) + if msg.Some? then Is(msg.value, t) else 0
  {
    PopTakesAFront(q);
    var (msg, r) := Popped(q);
    if msg.Some? {
      var l := Served(q).value;
      InAdds([msg.value], r.q[l], t);
    }
  }

  lemma PushWaits(q: Queues, msg: Msg, t: nat)
    requires Valid(q)
    ensures Valid(Pushed(q, msg))
    ensures Waiting(Pushed(q, msg), t) == Waiting(q, t) + if LevelOf(msg.flag).Some? then Is(msg, t) else 0
  {
    match LevelOf(msg.flag)
    case None =>
    case Some(l) => InAppends(q.q[l], msg, t);
  }

  lemma {:induction false} FillBalances(w: Wnd, t: nat)
    requires Tracked(w, t) && Landed(w, t)
    ensures Tracked(Filled(w), t) && Landed(Filled(w), t)
    decreases Backlog(w.queue)
  {
    PopTakesAFront(w.queue);
    PopWaits(w.queue, t);
    var (msg, q) := Popped(w.queue);
    if w.cur < w.size && msg.Some? {
      LaunchBalances(w.(queue := q), msg.value, t);
      FillBalances(Launched(w.(queue := q), msg.value), t);
    }
  }

  lemma RetireBalances(w: Wnd, id: Id, pick: Id, t: nat)
    requires Landed(w, t) && id in w.flight && (w.flight - {id} != map[] ==> pick in w.flight - {id})
    ensures Landed(Retired(w, id, pick), t)
  {
    FlightDrop(w.flight, id, t);
    InAppends(w.ackQ, w.flight[id], t);
  }

  lemma AddBalances(w: Wnd, msg: Msg, t: nat)
    requires Tracked(w, t) && Landed(w, t)
    ensures Tracked(Added(w, msg), t) && Landed(Added(w, msg), t)
  {
    InAppends(w.accepted, msg, t);
    if w.cur >= w.size {
      PushWaits(w.queue, msg, t);
      InAppends(w.dropped, msg, t);
      assert w.dropped + [] == w.dropped;
    } else {
      LaunchBalances(w.(accepted := w.accepted + [msg]), msg, t);
    }
  }

  lemma NextBalances(w: Wnd, op: Op, t: nat)
    requires Tracked(w, t) && Landed(w, t) && Legal(w, op)
    ensures Tracked(Next(w, op), t) && Landed(Next(w, op), t)
  {
    match op
    case Push(msg) => AddBalances(w, msg, t);
    case Ack(id, pick) =>
      if id in w.flight {
        RetireBalances(w, id, pick, t);
        FillBalances(Retired(w, id, pick), t);
        FlushLands(Filled(Retired(w, id, pick)), t);
      }
    case Resize(size) =>
      FillBalances(w.(size := size), t);
      FlushLands(Filled(w.(size := size)), t);
  }

  // ---------------------------------------------------------------- ids and order of callbacks

  /** Ids of first sends count up by one, modulo 65536, from the id after `first`. */
  ghost predicate IdsCount(w: Wnd, first: Id) {
    && (forall k :: 0 <= k < |w.launched| ==> w.launched[k].id == (first + 1 + k) % UINT16)
    && w.lastId == (first + |w.launched|) % UINT16
    && (forall k :: k in w.flight ==> exists i :: 0 <= i < |w.launched| && w.launched[i].id == k)
    && (|w.launched| <= UINT16 ==> w.overwritten == [])
  }

  lemma LaunchCountsIds(w: Wnd, msg: Msg, first: Id)
    requires IdsCount(w, first)
    ensures IdsCount(Launched(w, msg), first)
  {
    var n, r := |w.launched|, Launched(w, msg);
    IncIsMod(first + n);
    assert forall i :: 0 <= i < n ==> r.launched[i] == w.launched[i];
    assert r.launched[n].id == r.lastId;
    if n < UINT16 {
      forall i | 0 <= i < n ensures w.launched[i].id != r.lastId {
        IdsApart(first + 1, i, n);
      }
    }
  }

  lemma IncIsMod(x: nat)
    ensures Inc(x % UINT16) == (x + 1) % UINT16
  {
  }

  lemma IdsApart(x: nat, i: nat, n: nat)
    requires i < n < i + UINT16
    ensures (x + i) % UINT16 != (x + n) % UINT16
  {
    var p, q := (x + i) / UINT16, (x + n) / UINT16;
    assert x + i == UINT16 * p + (x + i) % UINT16 && x + n == UINT16 * q + (x + n) % UINT16;
  }

  lemma {:induction false} FillCountsIds(w: Wnd, first: Id)
    requires Valid(w.queue) && IdsCount(w, first)
    ensures IdsCount(Filled(w), first)
    decreases Backlog(w.queue)
  {
    PopTakesAFront(w.queue);
    var (msg, q) := Popped(w.queue);
    if w.cur < w.size && msg.Some? {
      LaunchCountsIds(w.(queue := q), msg.value, first);
      FillCountsIds(Launched(w.(queue := q), msg.value), first);
    }
  }

  lemma RetireCountsIds(w: Wnd, id: Id, pick: Id, first: Id)
    requires IdsCount(w, first) && id in w.flight && (w.flight - {id} != map[] ==> pick in w.flight - {id})
    ensures IdsCount(Retired(w, id, pick), first)
  {
    var r := Retired(w, id, pick);
    assert r.launched == w.launched && r.lastId == w.lastId && r.overwritten == w.overwritten;
    assert forall k :: k in r.flight ==> k in w.flight;
  }

  /** Ids depend on the sends and the flight alone. */
  lemma SameIds(w: Wnd, r: Wnd, first: Id)
    requires IdsCount(w, first)
    requires r.launched == w.launched && r.lastId == w.lastId && r.flight == w.flight && r.overwritten == w.overwritten
    ensures IdsCount(r, first)
  {
  }

  lemma NextCountsIds(w: Wnd, op: Op, first: Id)
    requires Valid(w.queue) && IdsCount(w, first) && Legal(w, op)
    ensures IdsCount(Next(w, op), first)
  {
    match op
    case Push(msg) => AddCountsIds(w, msg, first);
    case Ack(id, pick) =>
      if id in w.flight {
        RetireCountsIds(w, id, pick, first);
        FillCountsIds(Retired(w, id, pick), first);
        SameIds(Filled(Retired(w, id, pick)), Acked(w, id, pick), first);
      }
    case Resize(size) =>
      if w.size != size {
        SameIds(w, w.(size := size), first);
        FillCountsIds(w.(size := size), first);
        SameIds(Filled(w.(size := size)), Resized(w, size), first);
      }
  }

  lemma AddCountsIds(w: Wnd, msg: Msg, first: Id)
    requires Valid(w.queue) && IdsCount(w, first)
    ensures IdsCount(Added(w, msg), first)
  {
    var v := w.(accepted := w.accepted + [msg]);
    SameIds(w, v, first);
    if msg.flag.withoutId && w.cur < w.size {
      LaunchCountsIds(v, msg, first);
    } else {
      SameIds(w, Added(w, msg), first);
    }
  }

  lemma {:induction false} SentsAt(s: seq<Sending>, i: nat)
    requires i < |s|
    ensures |Sents(s)| == |s| && Sents(s)[i] == Sent(s[i])
  {
    if i > 0 { SentsAt(s[1..], i - 1); } else { SentsSize(s); }
  }

  lemma {:induction false} SentsSize(s: seq<Sending>)
    ensures |Sents(s)| == |s|
  {
    if s != [] { SentsSize(s[1..]); }
  }

  lemma {:induction false} DonesOf(s: seq<Msg>)
    ensures |Dones(s)| == |s| && forall i :: 0 <= i < |s| ==> Dones(s)[i] == Done(s[i])
  {
    if s != [] { DonesOf(s[1..]); }
  }

  ghost predicate SentAt(log: seq<Event>, i: int, msg: Msg) { 0 <= i < |log| && log[i].Sent? && log[i].s.msg == msg }

  /** No message is reported acked before it was sent. */
  ghost predicate SentFirst(log: seq<Event>) {
    forall j :: 0 <= j < |log| && log[j].Done? ==> exists i :: i < j && SentAt(log, i, log[j].msg)
  }

  /** Sent, or about to be. */
  ghost predicate Out(w: Wnd, msg: Msg) {
    (exists i :: SentAt(w.log, i, msg)) || (exists i :: 0 <= i < |w.sendQ| && w.sendQ[i].msg == msg)
  }

  ghost predicate Ordered(w: Wnd) {
    && SentFirst(w.log)
    && (forall k :: k in w.flight ==> Out(w, w.flight[k]))
    && (forall i :: 0 <= i < |w.ackQ| ==> Out(w, w.ackQ[i]))
  }

  lemma OutGoesOut(w: Wnd, msg: Msg) returns (i: nat)
    requires Out(w, msg)
    ensures i < |w.log| + |w.sendQ| && SentAt(Flushed(w).log, i, msg)
  {
    SentsSize(w.sendQ);
    if j :| SentAt(w.log, j, msg) {
      i := j;
    } else {
      var j :| 0 <= j < |w.sendQ| && w.sendQ[j].msg == msg;
      SentsAt(w.sendQ, j);
      i := |w.log| + j;
    }
  }

  lemma FlushOrders(w: Wnd)
    requires Ordered(w)
    ensures Ordered(Flushed(w))
  {
    SentsSize(w.sendQ);
    DonesOf(w.ackQ);
    var log := Flushed(w).log;
    var n := |w.log| + |w.sendQ|;
    forall j | 0 <= j < |log| && log[j].Done? ensures exists i :: i < j && SentAt(log, i, log[j].msg) {
      if j < |w.log| {
        assert log[j] == w.log[j];
        var i :| i < j && SentAt(w.log, i, w.log[j].msg);
        assert SentAt(log, i, log[j].msg);
      } else if j < n {
        SentsAt(w.sendQ, j - |w.log|);
      } else {
        assert log[j] == Dones(w.ackQ)[j - n];
        var i := OutGoesOut(w, w.ackQ[j - n]);
        assert i < j && SentAt(log, i, log[j].msg);
      }
    }
    forall k | k in w.flight ensures Out(Flushed(w), w.flight[k]) {
      var i := OutGoesOut(w, w.flight[k]);
    }
  }

  lemma EnterOrders(w: Wnd, msg: Msg)
    requires Ordered(w)
    ensures Ordered(Entered(w, msg))
  {
    var r := Entered(w, msg);
    assert r.sendQ[|w.sendQ|].msg == WithId(msg);
    forall m | Out(w, m) ensures Out(r, m) {
      if i :| 0 <= i < |w.sendQ| && w.sendQ[i].msg == m { assert r.sendQ[i].msg == m; }
    }
  }

  lemma {:induction false} FillOrders(w: Wnd)
    requires Valid(w.queue) && Ordered(w)
    ensures Ordered(Filled(w))
    decreases Backlog(w.queue)
  {
    PopTakesAFront(w.queue);
    var (msg, q) := Popped(w.queue);
    if w.cur < w.size && msg.Some? {
      EnterOrders(w.(queue := q), msg.value);
      FlushOrders(Entered(w.(queue := q), msg.value));
      FillOrders(Launched(w.(queue := q), msg.value));
    }
  }

  lemma RetireOrders(w: Wnd, id: Id, pick: Id)
    requires Ordered(w) && id in w.flight && (w.flight - {id} != map[] ==> pick in w.flight - {id})
    ensures Ordered(Retired(w, id, pick))
  {
    var r := Retired(w, id, pick);
    forall m | Out(w, m) ensures Out(r, m) {
      if i :| 0 <= i < |w.sendQ| && w.sendQ[i].msg == m { assert r.sendQ[i].msg == m; }
    }
  }

  lemma NextOrders(w: Wnd, op: Op)
    requires Valid(w.queue) && Ordered(w) && Legal(w, op)
    ensures Ordered(Next(w, op))
  {
    match op
    case Push(msg) =>
      if msg.flag.withoutId && w.cur < w.size {
        EnterOrders(w.(accepted := w.accepted + [msg]), msg);
        FlushOrders(Entered(w.(accepted := w.accepted + [msg]), msg));
      }
    case Ack(id, pick) =>
      if id in w.flight {
        RetireOrders(w, id, pick);
        FillOrders(Retired(w, id, pick));
        FlushOrders(Filled(Retired(w, id, pick)));
      }
    case Resize(size) =>
      if w.size != size {
        FillOrders(w.(size := size));
        FlushOrders(Filled(w.(size := size)));
      }
  }

  // ---------------------------------------------------------------- quick resends

  /** How many acks in a row, up to the last one, were out of order. */
  function Streak(acks: seq<bool>): nat {
    if acks == [] || acks[|acks| - 1] then 0 else Streak(acks[..|acks| - 1]) + 1
  }

  lemma {:induction false} StreakGrows(acks: seq<bool>, inOrder: bool)
    ensures Streak(acks + [inOrder]) == if inOrder then 0 else Streak(acks) + 1
  {
    assert (acks + [inOrder])[..|acks|] == acks;
  }

  /** While nothing was overwritten: the start message is in flight, and the counter is the
      number of acks out of order in a row, starting over at every third. */
  ghost predicate Paced(w: Wnd) {
    w.overwritten == [] ==>
      && (w.start.Some? ==> w.start.value.id in w.flight && w.flight[w.start.value.id] == w.start.value.msg)
      && w.outOfOrder == Streak(w.acks) % QUICK_RESEND
  }

  lemma LaunchPaces(w: Wnd, msg: Msg)
    requires Paced(w) && StartFits(w)
    ensures Paced(Launched(w, msg)) && StartFits(Launched(w, msg))
  {
    LaunchKeepsStart(w, msg);
    var id := Inc(w.lastId);
    if id !in w.flight { assert w.overwritten + [] == w.overwritten; }
  }

  lemma {:induction false} FillPaces(w: Wnd)
    requires Valid(w.queue) && Paced(w) && StartFits(w)
    ensures Paced(Filled(w))
    decreases Backlog(w.queue)
  {
    PopTakesAFront(w.queue);
    var (msg, q) := Popped(w.queue);
    if w.cur < w.size && msg.Some? {
      LaunchPaces(w.(queue := q), msg.value);
      FillPaces(Launched(w.(queue := q), msg.value));
    }
  }

  lemma RetirePaces(w: Wnd, id: Id, pick: Id)
    requires Paced(w) && StartFits(w) && id in w.flight && (w.flight - {id} != map[] ==> pick in w.flight - {id})
    ensures Paced(Retired(w, id, pick)) && StartFits(Retired(w, id, pick))
  {
    var inOrder := w.start.Some? && w.start.value.msg == w.flight[id];
    StreakGrows(w.acks, inOrder);
    if w.overwritten == [] && !inOrder {
      assert w.start.value.id in w.flight - {id};
    }
  }

  lemma NextPaces(w: Wnd, op: Op)
    requires Settled(w) && Paced(w) && Legal(w, op)
    ensures Paced(Next(w, op))
  {
    match op
    case Push(msg) => if w.cur < w.size { LaunchPaces(w.(accepted := w.accepted + [msg]), msg); }
    case Ack(id, pick) =>
      if id in w.flight {
        RetirePaces(w, id, pick);
        FillPaces(Retired(w, id, pick));
      }
    case Resize(size) => FillPaces(w.(size := size));
  }

  /** What is sent again, if anything, is the new start message. */
  lemma ResendIsStart(w: Wnd, id: Id, pick: Id)
    requires w.sendQ == [] && id in w.flight && (w.flight - {id} != map[] ==> pick in w.flight - {id})
    ensures var r := Retired(w, id, pick);
            || r.sendQ == []
            || (r.sendQ == [Sending(pick, r.flight[pick])] && pick in r.flight && pick != id)
    ensures var inOrder := w.start.Some? && w.start.value.msg == w.flight[id];
            Retired(w, id, pick).sendQ != [] <==> !inOrder && Inc(w.outOfOrder) >= QUICK_RESEND && w.flight - {id} != map[]
  {
  }

  /** While nothing was overwritten, an ack sends something again exactly when it is the third,
      sixth, ninth and so on out of order in a row; what it sends again is a message in flight,
      and not the one acked. */
  lemma QuickResendIsUnacked(w: Wnd, id: Id, pick: Id)
    requires Settled(w) && Paced(w) && w.overwritten == []
    requires id in w.flight && (w.flight - {id} != map[] ==> pick in w.flight - {id})
    ensures var r := Retired(w, id, pick);
            && (r.sendQ != [] <==> Streak(r.acks) > 0 && Streak(r.acks) % QUICK_RESEND == 0)
            && (r.sendQ != [] ==> r.sendQ == [Sending(pick, r.flight[pick])] && pick in r.flight && pick != id)
  {
    ResendIsStart(w, id, pick);
    RetiredStreak(w, id, pick);
    StreakIsThird(Streak(w.acks));
    if !(w.start.Some? && w.start.value.msg == w.flight[id]) { OutOfOrderLeavesSome(w, id); }
  }

  lemma RetiredStreak(w: Wnd, id: Id, pick: Id)
    requires id in w.flight && (w.flight - {id} != map[] ==> pick in w.flight - {id})
    ensures Streak(Retired(w, id, pick).acks)
            == if w.start.Some? && w.start.value.msg == w.flight[id] then 0 else Streak(w.acks) + 1
  {
    StreakGrows(w.acks, w.start.Some? && w.start.value.msg == w.flight[id]);
  }

  /** An ack out of order leaves the start message in flight. */
  lemma OutOfOrderLeavesSome(w: Wnd, id: Id)
    requires StartFits(w) && Paced(w) && w.overwritten == [] && id in w.flight
    requires !(w.start.Some? && w.start.value.msg == w.flight[id])
    ensures w.flight - {id} != map[] && w.outOfOrder == Streak(w.acks) % QUICK_RESEND
  {
    assert w.start.value.id in w.flight - {id};
  }

  lemma StreakIsThird(n: nat)
    ensures n % QUICK_RESEND + 1 >= QUICK_RESEND <==> (n + 1) % QUICK_RESEND == 0
  {
  }

  // ---------------------------------------------------------------- messages lost

  /** The local flag word of a message that never had one set, as of a FIN. */
  const UNFLAGGED := Flags(true, false, false, false, false)

  /** A message without a priority is lost exactly when the window is full: it is neither sent nor
      queued. Otherwise it is sent at once. */
  lemma UnflaggedIsLostIff(w: Wnd, fin: Msg)
    requires Valid(w.queue) && fin.flag == UNFLAGGED
    ensures var r := Added(w, fin);
            && (r.launched == w.launched && r.queue == w.queue && r.dropped == w.dropped + [fin] <==> w.cur >= w.size)
            && (w.cur < w.size ==> r.launched == w.launched + [Sending(Inc(w.lastId), WithId(fin))])
  {
    if w.cur < w.size { assert |Added(w, fin).launched| == |w.launched| + 1; }
  }

  // ---------------------------------------------------------------- ids that come round too soon

  /** A send takes the place of a message still in flight exactly when the next id is still in
      flight, and then the window count no longer matches the flight. */
  lemma LaunchOverwritesIff(w: Wnd, msg: Msg)
    requires Settled(w) && w.cur < w.size
    ensures Launched(w, msg).overwritten != w.overwritten <==> Inc(w.lastId) in w.flight
    ensures Inc(w.lastId) in w.flight ==> |Launched(w, msg).flight| == |w.flight| && Launched(w, msg).cur == w.cur + 1
  {
    if Inc(w.lastId) in w.flight {
      assert |Launched(w, msg).overwritten| == |w.overwritten| + 1;
    } else {
      assert w.overwritten + [] == w.overwritten;
    }
  }

  // ---------------------------------------------------------------- every run

  ghost predicate IsNew(w: Wnd, first: Id) {
    && Valid(w.queue) && AllEmpty(w.queue) && w.cur == 0 && w.flight == map[] && w.start.None? && w.lastId == first
    && w.sendQ == [] && w.ackQ == [] && w.log == [] && w.launched == [] && w.overwritten == [] && w.dropped == [] && w.accepted == [] && w.acks == [] && w.outOfOrder == 0
  }

  ghost predicate LegalRun(w: Wnd, ops: seq<Op>)
    requires Settled(w)
    decreases |ops|
  {
    ops == [] || (Legal(w, ops[0]) && (NextSettles(w, ops[0]); LegalRun(Next(w, ops[0]), ops[1..])))
  }

  ghost function Run(w: Wnd, ops: seq<Op>): (r: Wnd)
    requires Settled(w) && LegalRun(w, ops)
    ensures Settled(r)
    decreases |ops|
  {
    if ops == [] then w else
    NextSettles(w, ops[0]);
    Run(Next(w, ops[0]), ops[1..])
  }

  lemma {:induction false} RunKeepsOrder(w: Wnd, ops: seq<Op>, first: Id)
    requires Settled(w) && IdsCount(w, first) && Ordered(w) && LegalRun(w, ops)
    ensures IdsCount(Run(w, ops), first) && Ordered(Run(w, ops))
    decreases |ops|
  {
    if ops != [] {
      NextSettles(w, ops[0]);
      NextCountsIds(w, ops[0], first);
      NextOrders(w, ops[0]);
      RunKeepsOrder(Next(w, ops[0]), ops[1..], first);
    }
  }

  lemma {:induction false} RunBalances(w: Wnd, ops: seq<Op>, t: nat)
    requires Settled(w) && Tracked(w, t) && Landed(w, t) && LegalRun(w, ops)
    ensures Tracked(Run(w, ops), t) && Landed(Run(w, ops), t)
    decreases |ops|
  {
    if ops != [] {
      NextSettles(w, ops[0]);
      NextBalances(w, ops[0], t);
      RunBalances(Next(w, ops[0]), ops[1..], t);
    }
  }

  lemma NewIsFine(w: Wnd, first: Id)
    requires IsNew(w, first)
    ensures Settled(w) && IdsCount(w, first) && Ordered(w)
  {
  }

  lemma NewBalances(w: Wnd, first: Id, t: nat)
    requires IsNew(w, first)
    ensures Tracked(w, t) && Landed(w, t)
  {
    assert KeysOf(w.flight, t) == {};
  }

  /** Conservation over every run: each message object is waiting, in flight, reported acked,
      overwritten or dropped exactly as often as it was accepted. */
  lemma {:induction false} EveryRunConserves(w: Wnd, ops: seq<Op>, first: Id, t: nat)
    requires IsNew(w, first) && LegalRun(w, ops)
    ensures var r := Run(w, ops);
            Waiting(r.queue, t) + Flying(r.flight, t) + Finished(r.log, t) + In(r.overwritten, t) + In(r.dropped, t) == In(r.accepted, t)
  {
    NewIsFine(w, first);
    NewBalances(w, first, t);
    RunBalances(w, ops, t);
  }

  /** After every run from a new window: the count is the flight plus what was overwritten, with
      nothing overwritten in the first 65536 sends; while there is room nothing waits; first sends
      have consecutive ids; and acks are reported only for messages sent before. */
  lemma {:induction false} EveryRunIsOrderly(w: Wnd, ops: seq<Op>, first: Id)
    requires IsNew(w, first) && LegalRun(w, ops)
    ensures var r := Run(w, ops);
            && r.cur == |r.flight| + |r.overwritten| && (|r.launched| <= UINT16 ==> r.overwritten == [])
            && (r.cur < r.size ==> AllEmpty(r.queue))
            && (forall k :: 0 <= k < |r.launched| ==> r.launched[k].id == (first + 1 + k) % UINT16)
            && SentFirst(r.log)
  {
    NewIsFine(w, first);
    RunKeepsOrder(w, ops, first);
  }

  /** The counter law over every run. */
  lemma {:induction false} EveryRunIsPaced(w: Wnd, ops: seq<Op>)
    requires Settled(w) && Paced(w) && LegalRun(w, ops)
    ensures Paced(Run(w, ops))
    decreases |ops|
  {
    if ops != [] {
      NextSettles(w, ops[0]);
      NextPaces(w, ops[0]);
      EveryRunIsPaced(Next(w, ops[0]), ops[1..]);
    }
  }

  /** The message sent 65536 sends before the next one is still in flight. */
  ghost predicate Late(w: Wnd) {
    |w.launched| >= UINT16 && w.launched[|w.launched| - UINT16].id in w.flight
  }

  /** The next id is in flight exactly then. */
  lemma LateIff(w: Wnd, first: Id)
    requires IdsCount(w, first)
    ensures Inc(w.lastId) in w.flight <==> Late(w)
  {
    var n := |w.launched|;
    IncIsMod(first + n);
    if n >= UINT16 {
      assert (first + 1 + n - UINT16) % UINT16 == (first + 1 + n) % UINT16;
    } else {
      forall i | 0 <= i < n ensures w.launched[i].id != Inc(w.lastId) {
        IdsApart(first + 1, i, n);
      }
    }
  }

  lemma LaunchOverwrites(w: Wnd, msg: Msg, first: Id)
    requires IdsCount(w, first)
    ensures |Launched(w, msg).overwritten| == |w.overwritten| + if Late(w) then 1 else 0
  {
    LateIff(w, first);
  }

  /** A launch of SendNext finds its id in flight. */
  ghost predicate FillMeets(w: Wnd)
    requires Valid(w.queue)
    decreases Backlog(w.queue)
  {
    PopTakesAFront(w.queue);
    var (msg, q) := Popped(w.queue);
    w.cur < w.size && msg.Some? && (Late(w) || FillMeets(Launched(w.(queue := q), msg.value)))
  }

  ghost predicate Meets(w: Wnd, op: Op)
    requires Valid(w.queue) && Legal(w, op)
  {
    match op
    case Push(msg) => msg.flag.withoutId && w.cur < w.size && Late(w)
    case Ack(id, pick) => id in w.flight && FillMeets(Retired(w, id, pick))
    case Resize(size) => w.size != size && FillMeets(w.(size := size))
  }

  ghost predicate RunMeets(w: Wnd, ops: seq<Op>)
    requires Settled(w) && LegalRun(w, ops)
    decreases |ops|
  {
    ops != [] && (Meets(w, ops[0]) || (NextSettles(w, ops[0]); RunMeets(Next(w, ops[0]), ops[1..])))
  }

  /** The window after one turn of SendNext, if it launches. */
  ghost function Turn(w: Wnd): (v: Option<Wnd>)
    requires Valid(w.queue)
    ensures v.Some? ==> Valid(v.value.queue) && Backlog(v.value.queue) < Backlog(w.queue)
  {
    PopTakesAFront(w.queue);
    var (msg, q) := Popped(w.queue);
    if w.cur < w.size && msg.Some? then Some(Launched(w.(queue := q), msg.value)) else None
  }

  lemma {:induction false} TurnFills(w: Wnd)
    requires Valid(w.queue)
    ensures if Turn(w).None? then Filled(w).overwritten == w.overwritten && !FillMeets(w)
            else Filled(w) == Filled(Turn(w).value) && (FillMeets(w) <==> Late(w) || FillMeets(Turn(w).value))
  {
    PopTakesAFront(w.queue);
  }

  lemma TurnOverwrites(w: Wnd, first: Id)
    requires Valid(w.queue) && IdsCount(w, first) && Turn(w).Some?
    ensures IdsCount(Turn(w).value, first)
    ensures |Turn(w).value.overwritten| == |w.overwritten| + if Late(w) then 1 else 0
  {
    PopTakesAFront(w.queue);
    var (msg, q) := Popped(w.queue);
    LaunchOverwrites(w.(queue := q), msg.value, first);
    LaunchCountsIds(w.(queue := q), msg.value, first);
  }

  lemma {:induction false} FillOverwrites(w: Wnd, first: Id)
    requires Valid(w.queue) && IdsCount(w, first)
    ensures |Filled(w).overwritten| >= |w.overwritten|
    ensures |Filled(w).overwritten| > |w.overwritten| <==> FillMeets(w)
    decreases Backlog(w.queue)
  {
    TurnFills(w);
    if Turn(w).Some? {
      TurnOverwrites(w, first);
      FillOverwrites(Turn(w).value, first);
    }
  }

  lemma NextOverwrites(w: Wnd, op: Op, first: Id)
    requires Valid(w.queue) && Legal(w, op) && IdsCount(w, first)
    ensures |Next(w, op).overwritten| >= |w.overwritten|
    ensures |Next(w, op).overwritten| > |w.overwritten| <==> Meets(w, op)
  {
    match op
    case Push(msg) => LaunchOverwrites(w.(accepted := w.accepted + [msg]), msg, first);
    case Ack(id, pick) => if id in w.flight { FillOverwrites(Retired(w, id, pick), first); }
    case Resize(size) => FillOverwrites(w.(size := size), first);
  }

  /** Over every run a message in flight is displaced if and only if one is sent while the one
      sent 65536 sends before it is still in flight. */
  lemma {:induction false} RunOverwritesIff(w: Wnd, ops: seq<Op>, first: Id)
    requires Settled(w) && IdsCount(w, first) && LegalRun(w, ops)
    ensures |Run(w, ops).overwritten| >= |w.overwritten|
    ensures |Run(w, ops).overwritten| > |w.overwritten| <==> RunMeets(w, ops)
    decreases |ops|
  {
    if ops != [] {
      NextSettles(w, ops[0]);
      NextOverwrites(w, ops[0], first);
      NextCountsIds(w, ops[0], first);
      RunOverwritesIff(Next(w, ops[0]), ops[1..], first);
    }
  }

  /** A window of two with one message in flight, whose id comes round again after `left` more sends. */
  ghost predicate Lone(w: Wnd, id: Id, left: nat) {
    && Settled(w) && w.size == 2 && w.cur == 1 && w.flight.Keys == {id} && AllEmpty(w.queue) && w.overwritten == []
    && left < UINT16 && (w.lastId + 1 + left) % UINT16 == id
  }

  /** A message of its own, without an id and of low priority. */
  function Numbered(tag: nat): Msg { Msg(tag, Flags(true, true, false, false, false)) }

  lemma {:induction false} EmptyFillsNothing(w: Wnd)
    requires Valid(w.queue) && AllEmpty(w.queue)
    ensures var r := Filled(w);
            && AllEmpty(r.queue) && Valid(r.queue) && r == w.(queue := r.queue)
  {
    PopTakesAFront(w.queue);
  }

  /** A push and the ack of what it sent leave the one message alone, one id nearer. */
  lemma PushAndAck(w: Wnd, id: Id, left: nat) returns (next: Id)
    requires Lone(w, id, left) && left > 0
    ensures Legal(Next(w, Push(Numbered(left))), Ack(next, id)) && Settled(Next(w, Push(Numbered(left))))
    ensures Lone(Next(Next(w, Push(Numbered(left))), Ack(next, id)), id, left - 1)
  {
    next := Inc(w.lastId);
    assert next != id;
    var msg := Numbered(left);
    var v := Next(w, Push(msg));
    assert v == Launched(w.(accepted := w.accepted + [msg]), msg);
    NextSettles(w, Push(msg));
    assert w.overwritten + [] == w.overwritten;
    assert v.flight.Keys == {id, next} && v.queue == w.queue;
    assert (v.flight - {next}).Keys == {id};
    assert id in v.flight - {next};
    NextSettles(v, Ack(next, id));
    EmptyFillsNothing(Retired(v, next, id));
    var u := Next(v, Ack(next, id));
    assert u == Flushed(Filled(Retired(v, next, id)));
    assert u.flight == v.flight - {next};
  }

  /** A run that starts with one call. */
  lemma {:induction false} FirstOfRun(w: Wnd, op: Op, rest: seq<Op>)
    requires Settled(w) && Legal(w, op) && Settled(Next(w, op)) && LegalRun(Next(w, op), rest)
    ensures LegalRun(w, [op] + rest) && Run(w, [op] + rest) == Run(Next(w, op), rest)
  {
    assert ([op] + rest)[1..] == rest;
  }

  lemma LastPushOverwrites(w: Wnd, id: Id)
    requires Lone(w, id, 0)
    ensures Settled(Next(w, Push(Numbered(0)))) && Next(w, Push(Numbered(0))).overwritten != []
  {
    NextSettles(w, Push(Numbered(0)));
    assert id in w.flight && Inc(w.lastId) == id;
  }

  lemma {:induction false} TwoOfRun(w: Wnd, a: Op, b: Op, rest: seq<Op>)
    requires Settled(w) && Legal(w, a) && Settled(Next(w, a)) && Legal(Next(w, a), b)
    requires Settled(Next(Next(w, a), b)) && LegalRun(Next(Next(w, a), b), rest)
    ensures LegalRun(w, [a] + ([b] + rest)) && Run(w, [a] + ([b] + rest)) == Run(Next(Next(w, a), b), rest)
  {
    FirstOfRun(Next(w, a), b, rest);
    FirstOfRun(w, a, [b] + rest);
  }

  lemma {:induction false} LoneGetsOverwritten(w: Wnd, id: Id, left: nat) returns (ops: seq<Op>)
    requires Lone(w, id, left)
    ensures LegalRun(w, ops) && Run(w, ops).overwritten != []
    decreases left
  {
    if left == 0 {
      LastPushOverwrites(w, id);
      FirstOfRun(w, Push(Numbered(0)), []);
      ops := [Push(Numbered(0))] + [];
    } else {
      var next := PushAndAck(w, id, left);
      var a, b := Push(Numbered(left)), Ack(next, id);
      var rest := LoneGetsOverwritten(Next(Next(w, a), b), id, left - 1);
      TwoOfRun(w, a, b, rest);
      ops := [a] + ([b] + rest);
    }
  }

  /** And it does happen: in a new window of two, with one message never acked, a run of 65535
      messages sent and acked at once and one more displaces the first. */
  lemma WindowCanOverwrite(w: Wnd, first: Id) returns (ops: seq<Op>)
    requires IsNew(w, first) && w.size == 2
    ensures LegalRun(w, ops) && Run(w, ops).overwritten != []
  {
    var id := Inc(w.lastId);
    NewIsFine(w, first);
    NextSettles(w, Push(Numbered(UINT16)));
    var v := Next(w, Push(Numbered(UINT16)));
    assert v.flight.Keys == {id};
    assert (v.lastId + 1 + 65535) % UINT16 == id;
    var rest := LoneGetsOverwritten(v, id, 65535);
    FirstOfRun(w, Push(Numbered(UINT16)), rest);
    ops := [Push(Numbered(UINT16))] + rest;
  }
}
