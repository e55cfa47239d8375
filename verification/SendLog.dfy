/** What the send window hands to the socket: the callbacks of each call, in order, said without
    the window's pending queues, and over every run which messages are sent how often. */
module SendLog {
  import opened Common
  import opened PriorityQueue
  import opened SendWnd

  // ---------------------------------------------------------------- what one call lets in

  lemma {:induction false} PopShortens(q: Queues)
    requires Valid(q)
    ensures var (msg, r) := Popped(q);
            Valid(r) && if Backlog(q) == 0 then msg.None? && r.q == q.q else msg.Some? && Backlog(r) == Backlog(q) - 1
  {
    PopTakesAFront(q);
  }

  /** The next `n` messages the queue gives up, in order, and what it keeps. */
  ghost function PoppedFirst(q: Queues, n: nat): (r: (seq<Msg>, Queues))
    requires Valid(q) && n <= Backlog(q)
    ensures Valid(r.1) && |r.0| == n
    decreases n
  {
    if n == 0 then ([], q) else
    PopShortens(q);
    var (msg, p) := Popped(q);
    var rest := PoppedFirst(p, n - 1);
    ([msg.value] + rest.0, rest.1)
  }

  /** Messages under the ids that follow `last`. */
  ghost function UnderIds(msgs: seq<Msg>, last: Id): (r: seq<Sending>)
    ensures |r| == |msgs|
  {
    if msgs == [] then [] else [Sending(Inc(last), WithId(msgs[0]))] + UnderIds(msgs[1..], Inc(last))
  }

  /** How many waiting messages the window has room for. */
  ghost function Places(w: Wnd): (n: nat)
    requires Valid(w.queue)
    ensures n <= Backlog(w.queue)
  {
    if w.cur < w.size then Min(w.size - w.cur, Backlog(w.queue)) else 0
  }

  /** The first sends that filling the window makes. */
  ghost function LetIn(w: Wnd): (s: seq<Sending>)
    requires Valid(w.queue)
    ensures |s| == Places(w)
  {
    UnderIds(PoppedFirst(w.queue, Places(w)).0, w.lastId)
  }

  lemma {:induction false} NoTurn(w: Wnd)
    requires Valid(w.queue)
    ensures Turn(w).None? <==> Places(w) == 0
    ensures Turn(w).None? ==> LetIn(w) == [] && Filled(w) == w.(queue := Filled(w).queue) && Filled(w).queue.q == w.queue.q
  {
    PopShortens(w.queue);
  }

  /** The first message a turn launches. */
  ghost function TurnSend(w: Wnd): Sending
    requires Valid(w.queue) && Turn(w).Some?
  {
    PopShortens(w.queue);
    Sending(Inc(w.lastId), WithId(Popped(w.queue).0.value))
  }

  /** One turn of the loop launches one message. */
  lemma {:induction false} TurnLaunches(w: Wnd)
    requires Valid(w.queue) && Turn(w).Some?
    ensures var v := Turn(w).value;
            && Filled(w) == Filled(v) && v.launched == w.launched + [TurnSend(w)] && v.cur == w.cur + 1 && v.size == w.size
            && v.lastId == TurnSend(w).id && v.queue == Popped(w.queue).1 && v.sendQ == [] && v.ackQ == [] && v.acks == w.acks
            && v.log == w.log + Sents(w.sendQ + [TurnSend(w)]) + Dones(w.ackQ)
  {
    PopShortens(w.queue);
    TurnFills(w);
  }

  lemma {:induction false} TurnLetsIn(w: Wnd)
    requires Valid(w.queue) && Turn(w).Some?
    ensures var v := Turn(w).value;
            && Places(v) == Places(w) - 1 && LetIn(w) == [TurnSend(w)] + LetIn(v)
            && PoppedFirst(w.queue, Places(w)).1 == PoppedFirst(v.queue, Places(v)).1
  {
    PopShortens(w.queue);
    TurnLaunches(w);
    var (msg, q) := Popped(w.queue);
    var rest := PoppedFirst(q, Places(w) - 1);
    assert ([msg.value] + rest.0)[1..] == rest.0;
  }

  lemma OneInFront<T>(a: seq<T>, x: T, b: seq<T>)
    ensures (a + [x]) + b == a + ([x] + b)
  {
  }

  lemma Assoc<T>(a: seq<T>, b: seq<T>, c: seq<T>)
    ensures (a + b) + c == a + (b + c)
  {
  }

  /** Filling the window launches exactly as many waiting messages as there are places, in the
      order the queue gives them up, under consecutive ids. */
  lemma {:induction false} FillLetsIn(w: Wnd)
    requires Valid(w.queue)
    ensures Filled(w).launched == w.launched + LetIn(w) && Filled(w).cur == w.cur + Places(w)
    ensures Filled(w).queue.q == PoppedFirst(w.queue, Places(w)).1.q
    decreases Backlog(w.queue)
  {
    NoTurn(w);
    if Turn(w).Some? {
      var v := Turn(w).value;
      TurnLaunches(w);
      TurnLetsIn(w);
      FillLetsIn(v);
      OneInFront(w.launched, TurnSend(w), LetIn(v));
    }
  }

  lemma {:induction false} SentsAdds(a: seq<Sending>, b: seq<Sending>)
    ensures Sents(a + b) == Sents(a) + Sents(b)
  {
    if a == [] {
      assert a + b == b;
    } else {
      SentsAdds(a[1..], b);
      assert (a + b)[1..] == a[1..] + b;
    }
  }

  lemma {:induction false} NothingPending(log: seq<Event>, s: seq<Sending>)
    ensures log + Sents([] + s) + Dones([]) == log + Sents(s)
  {
    assert [] + s == s;
    assert log + Sents(s) + [] == log + Sents(s);
  }

  /** With nothing pending, filling sends what it lets in, and nothing else. */
  lemma {:induction false} FillSends(w: Wnd)
    requires Valid(w.queue) && w.sendQ == [] && w.ackQ == []
    ensures var r := Filled(w);
            r.log == w.log + Sents(LetIn(w)) && r.sendQ == [] && r.ackQ == []
    decreases Backlog(w.queue)
  {
    NoTurn(w);
    if Turn(w).Some? {
      var v := Turn(w).value;
      TurnLaunches(w);
      TurnLetsIn(w);
      FillSends(v);
      SentsAdds([TurnSend(w)], LetIn(v));
      NothingPending(w.log, [TurnSend(w)]);
      Assoc(w.log, Sents([TurnSend(w)]), Sents(LetIn(v)));
    }
  }

  /** With a resend and an ack pending and room for one at most, they all go out, the sends first. */
  lemma {:induction false} FillSendsOne(w: Wnd)
    requires Valid(w.queue) && Places(w) <= 1
    ensures Flushed(Filled(w)).log == w.log + Sents(w.sendQ + LetIn(w)) + Dones(w.ackQ)
  {
    NoTurn(w);
    if Turn(w).Some? {
      var v := Turn(w).value;
      TurnLaunches(w);
      TurnLetsIn(w);
      NoTurn(v);
      assert LetIn(w) == [TurnSend(w)];
      NothingPending(v.log, []);
      assert v.log + [] == v.log;
    } else {
      assert w.sendQ + LetIn(w) == w.sendQ;
    }
  }

  // ---------------------------------------------------------------- what one call sends and reports

  /** The last ack is the third, sixth, ninth and so on out of order in a row. */
  predicate IsThird(acks: seq<bool>) { Streak(acks) > 0 && Streak(acks) % QUICK_RESEND == 0 }

  ghost predicate Takes(w: Wnd, op: Op) { op.Ack? && op.id in w.flight }

  /** An ack is in order when it is the start message's. */
  ghost predicate InOrder(w: Wnd, op: Op)
    requires Takes(w, op)
  {
    w.start.Some? && w.start.value.msg == w.flight[op.id]
  }

  ghost function AcksAfter(w: Wnd, op: Op): seq<bool> { w.acks + if Takes(w, op) then [InOrder(w, op)] else [] }

  /** What a call sends again. */
  ghost function Again(w: Wnd, op: Op): seq<Sending> {
    if Takes(w, op) && IsThird(AcksAfter(w, op)) && op.pick in w.flight then [Sending(op.pick, w.flight[op.pick])] else []
  }

  /** The messages a call sends for the first time: the one pushed, if there is room; what an ack
      makes room for; what the new size has room for. */
  ghost function FirstSends(w: Wnd, op: Op): seq<Sending>
    requires Valid(w.queue)
  {
    match op
    case Push(msg) => if msg.flag.withoutId && w.cur < w.size then UnderIds([msg], w.lastId) else []
    case Ack(_, _) =>
      if Takes(w, op) && w.cur == w.size && Backlog(w.queue) > 0 then UnderIds(PoppedFirst(w.queue, 1).0, w.lastId) else []
    case Resize(size) => LetIn(w.(size := size))
  }

  ghost function Reported(w: Wnd, op: Op): seq<Msg> { if Takes(w, op) then [w.flight[op.id]] else [] }

  lemma PushGoesOut(w: Wnd, msg: Msg)
    requires Settled(w)
    ensures var op, r := Push(msg), Next(w, Push(msg));
            r.log == w.log + Sents(FirstSends(w, op)) && r.launched == w.launched + FirstSends(w, op) && r.acks == w.acks
  {
    if msg.flag.withoutId && w.cur < w.size {
      assert [msg][1..] == [];
      var s := Sending(Inc(w.lastId), WithId(msg));
      assert FirstSends(w, Push(msg)) == [s];
      assert [] + [s] == [s];
      NothingPending(w.log, [s]);
    }
  }

  lemma ResizeGoesOut(w: Wnd, size: Id)
    requires Settled(w)
    ensures var op, r := Resize(size), Next(w, Resize(size));
            r.log == w.log + Sents(FirstSends(w, op)) && r.launched == w.launched + FirstSends(w, op) && r.acks == w.acks
  {
    var v := w.(size := size);
    FillSends(v);
    FillLetsIn(v);
    FillKeepsAcks(v);
    if w.size == size { assert w == v; }
  }

  lemma {:induction false} FillKeepsAcks(w: Wnd)
    requires Valid(w.queue)
    ensures Filled(w).acks == w.acks
    decreases Backlog(w.queue)
  {
    NoTurn(w);
    if Turn(w).Some? {
      TurnLaunches(w);
      FillKeepsAcks(Turn(w).value);
    }
  }

  /** An ack makes room for one message at most. */
  lemma RetiredLetsIn(w: Wnd, op: Op)
    requires Settled(w) && Legal(w, op) && Takes(w, op)
    ensures var v := Retired(w, op.id, op.pick);
            Valid(v.queue) && Places(v) <= 1 && LetIn(v) == FirstSends(w, op)
  {
    RetireCounts(w, op.id, op.pick);
  }

  lemma RetiredSendsAgain(w: Wnd, op: Op)
    requires Settled(w) && Paced(w) && w.overwritten == [] && Legal(w, op) && Takes(w, op)
    ensures var v := Retired(w, op.id, op.pick);
            v.acks == AcksAfter(w, op) && v.sendQ == Again(w, op) && v.ackQ == Reported(w, op)
  {
    QuickResendIsUnacked(w, op.id, op.pick);
  }

  lemma {:induction false} AckGoesOut(w: Wnd, op: Op)
    requires Settled(w) && Paced(w) && w.overwritten == [] && Legal(w, op) && Takes(w, op)
    ensures var r := Next(w, op);
            && r.log == w.log + Sents(Again(w, op) + FirstSends(w, op)) + Dones(Reported(w, op))
            && r.launched == w.launched + FirstSends(w, op) && r.acks == AcksAfter(w, op)
  {
    var v := Retired(w, op.id, op.pick);
    RetiredLetsIn(w, op);
    RetiredSendsAgain(w, op);
    FillSendsOne(v);
    FillLetsIn(v);
    FillKeepsAcks(v);
  }

  /** Everything a call does to the socket, in order: what it sends again, what it sends for the
      first time, and the ack it reports.  The first sends are recorded as such. */
  lemma {:induction false} NextGoesOut(w: Wnd, op: Op)
    requires Settled(w) && Paced(w) && w.overwritten == [] && Legal(w, op)
    ensures var r := Next(w, op);
            && r.log == w.log + Sents(Again(w, op) + FirstSends(w, op)) + Dones(Reported(w, op))
            && r.launched == w.launched + FirstSends(w, op) && r.acks == AcksAfter(w, op)
  {
    if Takes(w, op) {
      AckGoesOut(w, op);
    } else {
      assert Again(w, op) + FirstSends(w, op) == FirstSends(w, op);
      assert w.log + Sents(FirstSends(w, op)) + Dones([]) == w.log + Sents(FirstSends(w, op));
      assert AcksAfter(w, op) == w.acks;
      match op
      case Push(msg) => PushGoesOut(w, msg);
      case Ack(_, _) =>
      case Resize(size) => ResizeGoesOut(w, size);
    }
  }

  /** What waits after a call: a message is queued only when the window is full, and what a call lets
      in leaves the queue in the order it is popped. */
  ghost function WaitingAfter(w: Wnd, op: Op): seq<seq<Msg>>
    requires Valid(w.queue)
  {
    match op
    case Push(msg) => if msg.flag.withoutId && w.cur >= w.size then Pushed(w.queue, msg).q else w.queue.q
    case Ack(_, _) => if FirstSends(w, op) != [] then PoppedFirst(w.queue, 1).1.q else w.queue.q
    case Resize(size) => PoppedFirst(w.queue, Places(w.(size := size))).1.q
  }

  lemma {:induction false} NextQueue(w: Wnd, op: Op)
    requires Settled(w) && Legal(w, op)
    ensures Next(w, op).queue.q == WaitingAfter(w, op)
  {
    match op
    case Push(msg) =>
    case Ack(id, pick) =>
      if Takes(w, op) {
        var v := Retired(w, id, pick);
        RetiredLetsIn(w, op);
        FillLetsIn(v);
        assert v.queue == w.queue;
      }
    case Resize(size) => FillLetsIn(w.(size := size));
  }

  /** The start message after a call: the one chosen by an ack, as long as something is in flight;
      otherwise the one there was, or the first one sent. */
  ghost function StartAfter(w: Wnd, op: Op): Option<Sending>
    requires Valid(w.queue) && Legal(w, op)
  {
    if Takes(w, op) && w.flight - {op.id} != map[] then Some(Sending(op.pick, w.flight[op.pick]))
    else if !Takes(w, op) && w.start.Some? then w.start
    else if FirstSends(w, op) != [] then Some(FirstSends(w, op)[0])
    else None
  }

  lemma {:induction false} FillKeepsStart(w: Wnd)
    requires Valid(w.queue)
    ensures Filled(w).start == if w.start.Some? || LetIn(w) == [] then w.start else Some(LetIn(w)[0])
    decreases Backlog(w.queue)
  {
    NoTurn(w);
    if Turn(w).Some? {
      TurnLetsIn(w);
      TurnStarts(w);
      FillKeepsStart(Turn(w).value);
    }
  }

  lemma {:induction false} TurnStarts(w: Wnd)
    requires Valid(w.queue) && Turn(w).Some?
    ensures Turn(w).value.start == if w.start.Some? then w.start else Some(TurnSend(w))
    ensures Filled(w) == Filled(Turn(w).value)
  {
    PopShortens(w.queue);
    TurnFills(w);
  }

  lemma {:induction false} AckStarts(w: Wnd, op: Op)
    requires Settled(w) && Legal(w, op) && Takes(w, op)
    ensures Next(w, op).start == StartAfter(w, op)
  {
    var v := Retired(w, op.id, op.pick);
    RetiredLetsIn(w, op);
    FillKeepsStart(v);
    assert v.start == if w.flight - {op.id} == map[] then None else Some(Sending(op.pick, w.flight[op.pick]));
  }

  lemma {:induction false} ResizeStarts(w: Wnd, size: Id)
    requires Settled(w)
    ensures Next(w, Resize(size)).start == StartAfter(w, Resize(size))
  {
    FillKeepsStart(w.(size := size));
    if w.size == size { assert w.(size := size) == w && Places(w) == 0; }
  }

  lemma {:induction false} NextStart(w: Wnd, op: Op)
    requires Settled(w) && Legal(w, op)
    ensures Next(w, op).start == StartAfter(w, op)
  {
    match op
    case Push(msg) =>
    case Ack(_, _) => if Takes(w, op) { AckStarts(w, op); }
    case Resize(size) => ResizeStarts(w, size);
  }

  /** After an ack the log goes on with another message that was in flight already, ahead of
      everything else, if and only if the ack is the third, sixth and so on out of order in a row. */
  lemma {:induction false} AckResendsIff(w: Wnd, op: Op)
    requires Settled(w) && Paced(w) && w.overwritten == [] && Legal(w, op) && Takes(w, op) && Next(w, op).overwritten == []
    ensures IsThird(Next(w, op).acks)
            <==> exists s :: SendsNext(w.log, Next(w, op).log, s) && StillOut(w, op, s)
  {
    NextGoesOut(w, op);
    if IsThird(Next(w, op).acks) {
      ThirdResends(w, op);
    } else {
      forall s | SendsNext(w.log, Next(w, op).log, s) ensures !StillOut(w, op, s) { OthersSendNew(w, op, s); }
    }
  }

  /** In flight when the ack of another message comes. */
  ghost predicate StillOut(w: Wnd, op: Op, s: Sending)
    requires Takes(w, op)
  {
    s.id in w.flight && s.msg == w.flight[s.id] && s.id != op.id
  }

  /** What is sent again is in flight after the ack as well. */
  lemma {:induction false} ThirdResends(w: Wnd, op: Op)
    requires Settled(w) && Paced(w) && w.overwritten == [] && Legal(w, op) && Takes(w, op) && IsThird(AcksAfter(w, op))
    ensures op.pick in w.flight && op.pick in Next(w, op).flight
    ensures SendsNext(w.log, Next(w, op).log, Sending(op.pick, w.flight[op.pick])) && StillOut(w, op, Sending(op.pick, w.flight[op.pick]))
  {
    NextGoesOut(w, op);
    QuickResendIsUnacked(w, op.id, op.pick);
    RetiredSendsAgain(w, op);
    PicksStay(w, op);
    SentsAt(Again(w, op) + FirstSends(w, op), 0);
  }

  lemma {:induction false} OthersSendNew(w: Wnd, op: Op, s: Sending)
    requires Settled(w) && Paced(w) && w.overwritten == [] && Legal(w, op) && Takes(w, op) && Next(w, op).overwritten == []
    requires !IsThird(AcksAfter(w, op)) && SendsNext(w.log, Next(w, op).log, s)
    ensures !StillOut(w, op, s)
  {
    NextGoesOut(w, op);
    var first := FirstSends(w, op);
    assert Again(w, op) + first == first;
    if first != [] {
      SentsAt(first, 0);
      FirstIsFresh(w, op);
    }
  }

  /** The callbacks that follow `before` in `log` begin with the send of `s`. */
  ghost predicate SendsNext(before: seq<Event>, log: seq<Event>, s: Sending) {
    |before| < |log| && log[|before|] == Sent(s)
  }

  lemma PicksStay(w: Wnd, op: Op)
    requires Settled(w) && Legal(w, op) && Takes(w, op)
    ensures forall k :: k in w.flight && k != op.id ==> k in Next(w, op).flight
  {
    FillKeepsFlight(Retired(w, op.id, op.pick));
  }

  lemma {:induction false} FillKeepsFlight(w: Wnd)
    requires Valid(w.queue)
    ensures forall k :: k in w.flight ==> k in Filled(w).flight
    ensures |w.overwritten| <= |Filled(w).overwritten|
    decreases Backlog(w.queue)
  {
    NoTurn(w);
    if Turn(w).Some? {
      TurnLaunches(w);
      FillKeepsFlight(Turn(w).value);
    }
  }

  /** When nothing is overwritten, a first send has an id that was not in flight. */
  lemma {:induction false} FirstIsFresh(w: Wnd, op: Op)
    requires Settled(w) && Legal(w, op) && Takes(w, op) && Next(w, op).overwritten == [] && FirstSends(w, op) != []
    ensures FirstSends(w, op)[0].id !in w.flight || FirstSends(w, op)[0].id == op.id
  {
    var v := Retired(w, op.id, op.pick);
    RetiredLetsIn(w, op);
    NoTurn(v);
    TurnLetsIn(v);
    TurnLaunches(v);
    FillKeepsFlight(Turn(v).value);
    assert TurnSend(v).id !in v.flight;
  }

  // ---------------------------------------------------------------- every run

  /** The sends of a log, in order. */
  ghost function SendsOf(log: seq<Event>): seq<Sending> {
    if log == [] then [] else (if log[0].Sent? then [log[0].s] else []) + SendsOf(log[1..])
  }

  /** The acks reported, in order. */
  ghost function AcksOf(log: seq<Event>): seq<Msg> {
    if log == [] then [] else (if log[0].Done? then [log[0].msg] else []) + AcksOf(log[1..])
  }

  lemma {:induction false} SendsAdd(a: seq<Event>, b: seq<Event>)
    ensures SendsOf(a + b) == SendsOf(a) + SendsOf(b)
  {
    if a == [] {
      assert a + b == b;
    } else {
      assert (a + b)[0] == a[0] && (a + b)[1..] == a[1..] + b;
      SendsAdd(a[1..], b);
      Assoc(if a[0].Sent? then [a[0].s] else [], SendsOf(a[1..]), SendsOf(b));
    }
  }

  lemma {:induction false} AcksAdd(a: seq<Event>, b: seq<Event>)
    ensures AcksOf(a + b) == AcksOf(a) + AcksOf(b)
  {
    if a == [] {
      assert a + b == b;
    } else {
      assert (a + b)[0] == a[0] && (a + b)[1..] == a[1..] + b;
      AcksAdd(a[1..], b);
      Assoc(if a[0].Done? then [a[0].msg] else [], AcksOf(a[1..]), AcksOf(b));
    }
  }

  lemma {:induction false} PartsOfSents(s: seq<Sending>)
    ensures SendsOf(Sents(s)) == s && AcksOf(Sents(s)) == []
  {
    if s != [] { PartsOfSents(s[1..]); }
  }

  lemma {:induction false} PartsOfDones(s: seq<Msg>)
    ensures SendsOf(Dones(s)) == [] && AcksOf(Dones(s)) == s
  {
    if s != [] { PartsOfDones(s[1..]); }
  }

  /** What a run sends again, in order. */
  ghost function RunAgain(w: Wnd, ops: seq<Op>): seq<Sending>
    requires Settled(w) && LegalRun(w, ops)
    decreases |ops|
  {
    if ops == [] then [] else
    NextSettles(w, ops[0]);
    Again(w, ops[0]) + RunAgain(Next(w, ops[0]), ops[1..])
  }

  /** The messages whose acks a run takes, in order. */
  ghost function RunReported(w: Wnd, ops: seq<Op>): seq<Msg>
    requires Settled(w) && LegalRun(w, ops)
    decreases |ops|
  {
    if ops == [] then [] else
    NextSettles(w, ops[0]);
    Reported(w, ops[0]) + RunReported(Next(w, ops[0]), ops[1..])
  }

  /** How many acks were the third, sixth and so on out of order in a row. */
  function Thirds(acks: seq<bool>): nat {
    if acks == [] then 0 else Thirds(acks[..|acks| - 1]) + if IsThird(acks) then 1 else 0
  }

  lemma {:induction false} NextParts(w: Wnd, op: Op)
    requires Settled(w) && Paced(w) && w.overwritten == [] && Legal(w, op)
    ensures var r := Next(w, op);
            && SendsOf(r.log) == SendsOf(w.log) + (Again(w, op) + FirstSends(w, op))
            && AcksOf(r.log) == AcksOf(w.log) + Reported(w, op)
            && r.launched == w.launched + FirstSends(w, op)
  {
    var s := Again(w, op) + FirstSends(w, op);
    NextGoesOut(w, op);
    SendsAdd(w.log + Sents(s), Dones(Reported(w, op)));
    SendsAdd(w.log, Sents(s));
    AcksAdd(w.log + Sents(s), Dones(Reported(w, op)));
    AcksAdd(w.log, Sents(s));
    PartsOfSents(s);
    PartsOfDones(Reported(w, op));
    assert SendsOf(w.log) + s + [] == SendsOf(w.log) + s;
    assert AcksOf(w.log) + [] == AcksOf(w.log);
  }

  /** What is sent again by one call is counted by its ack. */
  lemma {:induction false} NextThirds(w: Wnd, op: Op)
    requires Settled(w) && Paced(w) && w.overwritten == [] && Legal(w, op)
    ensures Thirds(Next(w, op).acks) == Thirds(w.acks) + |Again(w, op)|
  {
    NextGoesOut(w, op);
    if Takes(w, op) {
      assert AcksAfter(w, op)[..|w.acks|] == w.acks;
      QuickResendIsUnacked(w, op.id, op.pick);
      RetiredSendsAgain(w, op);
    } else {
      assert AcksAfter(w, op) == w.acks;
    }
  }

  /** Nothing overwritten by a run means nothing overwritten by its first call. */
  lemma {:induction false} StillWhole(w: Wnd, ops: seq<Op>, first: Id)
    requires Settled(w) && IdsCount(w, first) && LegalRun(w, ops) && Run(w, ops).overwritten == []
    ensures w.overwritten == []
  {
    RunOverwritesIff(w, ops, first);
  }

  /** From the sends `x` and first sends `l` on, a run has made the sends `y` and first sends `m`,
      and sent `again` what it sent again. */
  ghost predicate Balanced(x: seq<Sending>, l: seq<Sending>, y: seq<Sending>, m: seq<Sending>, again: seq<Sending>) {
    forall s :: multiset(y)[s] + multiset(l)[s] == multiset(x)[s] + multiset(m)[s] + multiset(again)[s]
  }

  lemma {:induction false} TimesAdd(a: seq<Sending>, b: seq<Sending>, s: Sending)
    ensures multiset(a + b)[s] == multiset(a)[s] + multiset(b)[s]
  {
  }

  lemma {:induction false} BalanceGrows(x: seq<Sending>, l: seq<Sending>, y: seq<Sending>, m: seq<Sending>,
                                        again: seq<Sending>, first: seq<Sending>, rest: seq<Sending>)
    requires Balanced(x + (again + first), l + first, y, m, rest)
    ensures Balanced(x, l, y, m, again + rest)
  {
    forall s ensures multiset(y)[s] + multiset(l)[s] == multiset(x)[s] + multiset(m)[s] + multiset(again + rest)[s] {
      TimesAdd(x, again + first, s);
      TimesAdd(again, first, s);
      TimesAdd(l, first, s);
      TimesAdd(again, rest, s);
    }
  }

  lemma {:induction false} RunSends(w: Wnd, ops: seq<Op>, first: Id)
    requires Settled(w) && Paced(w) && IdsCount(w, first) && LegalRun(w, ops) && Run(w, ops).overwritten == []
    ensures var r := Run(w, ops);
            Balanced(SendsOf(w.log), w.launched, SendsOf(r.log), r.launched, RunAgain(w, ops))
    decreases |ops|
  {
    StillWhole(w, ops, first);
    if ops != [] {
      var op := ops[0];
      NextSettles(w, op);
      NextPaces(w, op);
      NextCountsIds(w, op, first);
      NextParts(w, op);
      RunSends(Next(w, op), ops[1..], first);
      var r := Run(w, ops);
      BalanceGrows(SendsOf(w.log), w.launched, SendsOf(r.log), r.launched, Again(w, op), FirstSends(w, op),
                   RunAgain(Next(w, op), ops[1..]));
    }
  }

  lemma {:induction false} RunThirds(w: Wnd, ops: seq<Op>, first: Id)
    requires Settled(w) && Paced(w) && IdsCount(w, first) && LegalRun(w, ops) && Run(w, ops).overwritten == []
    ensures Thirds(Run(w, ops).acks) == Thirds(w.acks) + |RunAgain(w, ops)|
    decreases |ops|
  {
    StillWhole(w, ops, first);
    if ops != [] {
      NextSettles(w, ops[0]);
      NextPaces(w, ops[0]);
      NextCountsIds(w, ops[0], first);
      NextThirds(w, ops[0]);
      RunThirds(Next(w, ops[0]), ops[1..], first);
    }
  }

  lemma {:induction false} RunReports(w: Wnd, ops: seq<Op>, first: Id)
    requires Settled(w) && Paced(w) && IdsCount(w, first) && LegalRun(w, ops) && Run(w, ops).overwritten == []
    ensures AcksOf(Run(w, ops).log) == AcksOf(w.log) + RunReported(w, ops)
    decreases |ops|
  {
    StillWhole(w, ops, first);
    if ops != [] {
      NextSettles(w, ops[0]);
      NextPaces(w, ops[0]);
      NextCountsIds(w, ops[0], first);
      NextParts(w, ops[0]);
      RunReports(Next(w, ops[0]), ops[1..], first);
      Assoc(AcksOf(w.log), Reported(w, ops[0]), RunReported(Next(w, ops[0]), ops[1..]));
    }
  }

  lemma {:induction false} BalancedFromNothing(y: seq<Sending>, m: seq<Sending>, again: seq<Sending>)
    requires Balanced([], [], y, m, again)
    ensures multiset(y) == multiset(m) + multiset(again) && |y| == |m| + |again|
  {
    var none: seq<Sending> := [];
    assert Balanced(none, none, y, m, again);
    forall s ensures multiset(y)[s] == multiset(m + again)[s] {
      TimesAdd(m, again, s);
      assert multiset(none)[s] == 0;
    }
    assert multiset(y) == multiset(m + again);
    SameSize(y, m + again);
  }

  lemma {:induction false} SameSize(a: seq<Sending>, b: seq<Sending>)
    requires multiset(a) == multiset(b)
    ensures |a| == |b|
  {
    assert |multiset(a)| == |a| && |multiset(b)| == |b|;
  }

  /** Every run of a new window in which nothing is overwritten sends each message once for the first
      time, and again what the third, sixth and so on of the acks out of order in a row ask for;
      nothing else is sent, and each ack taken is reported once, in order. */
  lemma {:induction false} EveryRunSends(w: Wnd, ops: seq<Op>, first: Id)
    requires IsNew(w, first) && LegalRun(w, ops) && Run(w, ops).overwritten == []
    ensures var r := Run(w, ops);
            && multiset(SendsOf(r.log)) == multiset(r.launched) + multiset(RunAgain(w, ops))
            && |SendsOf(r.log)| == |r.launched| + Thirds(r.acks)
            && AcksOf(r.log) == RunReported(w, ops)
  {
    NewIsFine(w, first);
    RunSends(w, ops, first);
    RunThirds(w, ops, first);
    RunReports(w, ops, first);
    var r := Run(w, ops);
    BalancedFromNothing(SendsOf(r.log), r.launched, RunAgain(w, ops));
  }
}
