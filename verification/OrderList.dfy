/** The reorder buffer of common/OrderListImpl.cpp (`CReliableOrderlyList`): 256 slots
    indexed by the low byte of a wrapping 16-bit id. */
module OrderList {
  import opened Bytes
  import opened Common

  const CACHE := 256        // __msx_cache_msg_num
  const COMPARE := 100      // __max_compare_num
  const MAX_ID := 0xFFFF    // __max_id
  const DISCARD_LIMIT := 3  // __msg_discard_limit

  type Id = Uint16

  /** `tag` tells message objects apart. */
  datatype Msg = Msg(id: Id, tag: nat)

  datatype Slot = Empty | Held(msg: Msg)

  /** The buffer, with a log of what it delivered and what it refused. */
  datatype Buffer = Buffer(want: Id, slots: seq<Slot>, discards: Id, delivered: seq<Msg>, refused: seq<Msg>)

  // ---------------------------------------------------------------- one insertion

  function SlotOf(id: Id): nat { id % CACHE }

  predicate TooFar(want: Id, id: Id) {
    Abs(id - want) > COMPARE || (want > MAX_ID - COMPARE / 2 && id < COMPARE / 2)
  }

  function Taken(s: Slot): nat { if s.Held? then 1 else 0 }

  /** How many slots are taken. */
  function Occupied(slots: seq<Slot>): nat {
    if slots == [] then 0 else Occupied(slots[..|slots| - 1]) + Taken(slots[|slots| - 1])
  }

  lemma {:induction false} OccupiedUpdate(slots: seq<Slot>, i: nat, s: Slot)
    requires i < |slots|
    ensures Occupied(slots[i := s]) + Taken(slots[i]) == Occupied(slots) + Taken(s)
  {
    var n := |slots| - 1;
    if i == n {
      assert slots[i := s][..n] == slots[..n];
    } else {
      OccupiedUpdate(slots[..n], i, s);
      assert slots[i := s][..n] == slots[..n][i := s];
    }
  }

  lemma {:induction false} OccupiedBound(slots: seq<Slot>)
    ensures Occupied(slots) <= |slots|
  {
    if slots != [] { OccupiedBound(slots[..|slots| - 1]); }
  }

  /** Deliver from slot `i` on, up to the first empty slot. */
  function Drain(b: Buffer, i: nat): (r: Buffer)
    requires |b.slots| == CACHE && i < CACHE
    ensures |r.slots| == CACHE
    decreases Occupied(b.slots)
  {
    if b.slots[i].Empty? then b else
    OccupiedUpdate(b.slots, i, Empty);
    Drain(Popped(b, i), (i + 1) % CACHE)
  }

  /** One turn of the drain loop. */
  function Popped(b: Buffer, i: nat): Buffer
    requires i < |b.slots| && b.slots[i].Held?
  {
    b.(want := (b.want + 1) % UINT16, slots := b.slots[i := Empty], delivered := b.delivered + [b.slots[i].msg])
  }

  lemma {:induction false} DrainStep(b: Buffer, i: nat)
    requires |b.slots| == CACHE && i < CACHE && b.slots[i].Held?
    ensures Drain(b, i) == Drain(Popped(b, i), (i + 1) % CACHE)
    ensures Occupied(Popped(b, i).slots) == Occupied(b.slots) - 1
  {
    OccupiedUpdate(b.slots, i, Empty);
  }

  function Inserted(b: Buffer, msg: Msg): (r: (nat, Buffer))
    requires |b.slots| == CACHE
    ensures |r.1.slots| == CACHE
  {
    var i := SlotOf(msg.id);
    if TooFar(b.want, msg.id) then
      var d: Id := (b.discards + 1) % UINT16;
      (if d >= DISCARD_LIMIT then 2 else 0, b.(discards := d, refused := b.refused + [msg]))
    else if msg.id == b.want then
      (0, Drain(b.(slots := b.slots[i := Held(msg)]), i))
    else if b.slots[i].Held? then
      (1, b.(refused := b.refused + [msg]))
    else
      (0, b.(slots := b.slots[i := Held(msg)]))
  }

  function Start(start: Id): Buffer { Buffer(start, seq(CACHE, _ => Empty), 0, [], []) }

  // ---------------------------------------------------------------- the list as written

  class ReliableOrderlyList {
    const orderList: array<Slot>
    var awaited: Id
    var discardMsgCount: Id
    var recvList: seq<Msg>
    var upper: seq<Msg>        // ToRecv calls, in order
    ghost var refused: seq<Msg>

    ghost predicate Valid()
      reads this
    {
      orderList.Length == CACHE && recvList == []
    }

    ghost function View(): Buffer
      reads this, orderList
    {
      Buffer(awaited, orderList[..], discardMsgCount, upper, refused)
    }

    constructor (start: Id)
      ensures Valid() && View() == Start(start) && fresh(orderList)
    {
      orderList := new Slot[CACHE](_ => Empty);
      awaited, discardMsgCount := start, 0;
      recvList, upper, refused := [], [], [];
      new;
      assert orderList[..] == Start(start).slots;
    }

    method Insert(msg: Msg) returns (ret: nat)
      requires Valid()
      modifies this, orderList
      ensures Valid() && (ret, View()) == Inserted(old(View()), msg)
    {
      var id := msg.id;
      var index: nat := id % CACHE;
      if Abs(id - awaited) > COMPARE || (awaited > MAX_ID - COMPARE / 2 && id < COMPARE / 2) {
        discardMsgCount := (discardMsgCount + 1) % UINT16;
        refused := refused + [msg];
        if discardMsgCount >= DISCARD_LIMIT {
          return 2;
        }
        return 0;
      }
      if id == awaited {
        orderList[index] := Held(msg);
        assert orderList[..] == old(orderList[..])[index := Held(msg)];
        assert upper + recvList == upper;
        DrainSlots(index);
      } else {
        if orderList[index].Held? {
          refused := refused + [msg];
          return 1;
        }
        orderList[index] := Held(msg);
        assert orderList[..] == old(orderList[..])[index := Held(msg)];
      }
      assert old(upper) + [] == old(upper);
      PassUp();
      return 0;
    }

    /** The buffer with the receive queue counted as delivered. */
    ghost function Pending(): Buffer
      reads this, orderList
    {
      Buffer(awaited, orderList[..], discardMsgCount, upper + recvList, refused)
    }

    /** One turn of the drain loop. */
    method TakeSlot(index: nat) returns (next: nat)
      requires index < CACHE == orderList.Length && orderList[index].Held?
      modifies this`awaited, this`recvList, orderList
      ensures Pending() == Popped(old(Pending()), index) && next == (index + 1) % CACHE
    {
      awaited := (awaited + 1) % UINT16;
      recvList := recvList + [orderList[index].msg];
      assert upper + recvList == old(upper + recvList) + [orderList[index].msg];
      orderList[index] := Empty;
      assert orderList[..] == old(orderList[..])[index := Empty];
      next := index + 1;
      if next >= CACHE {
        next := 0;
      }
    }

    /** The drain loop: move consecutive messages to the receive queue. */
    method DrainSlots(start: nat)
      requires start < CACHE == orderList.Length
      modifies this`awaited, this`recvList, orderList
      ensures Pending() == Drain(old(Pending()), start)
    {
      var index := start;
      while orderList[index].Held?
        invariant 0 <= index < CACHE
        invariant Drain(Pending(), index) == Drain(old(Pending()), start)
        decreases Occupied(Pending().slots)
      {
        DrainStep(Pending(), index);
        index := TakeSlot(index);
      }
    }

    /** The queue loop: hand every received message to its socket. */
    method PassUp()
      modifies this`recvList, this`upper
      ensures recvList == [] && upper == old(upper + recvList)
    {
      while recvList != []
        invariant upper + recvList == old(upper + recvList)
        decreases |recvList|
      {
        upper := upper + [recvList[0]];
        recvList := recvList[1..];
      }
    }
  }

  // ---------------------------------------------------------------- every arrival sequence

  /** What each Insert of a sequence of arrivals returned, and the buffer after them. */
  function Run(b: Buffer, msgs: seq<Msg>): (r: (seq<nat>, Buffer))
    requires |b.slots| == CACHE
    ensures |r.1.slots| == CACHE && |r.0| == |msgs|
  {
    if msgs == [] then ([], b) else
    var (rets, c) := Run(b, msgs[..|msgs| - 1]);
    var (ret, d) := Inserted(c, msgs[|msgs| - 1]);
    (rets + [ret], d)
  }

  /** Ids in the low byte: a slot holds only its own ids, and what was delivered counts up from `start`. */
  ghost predicate Counts(b: Buffer, start: Id) {
    && |b.slots| == CACHE
    && (forall j :: 0 <= j < CACHE && b.slots[j].Held? ==> SlotOf(b.slots[j].msg.id) == j)
    && b.want == (start + |b.delivered|) % UINT16
    && (forall k :: 0 <= k < |b.delivered| ==> SlotOf(b.delivered[k].id) == (start + k) % CACHE)
  }

  /** Between calls the slot of the awaited id is empty. */
  ghost predicate Settled(b: Buffer, start: Id) { Counts(b, start) && b.slots[SlotOf(b.want)].Empty? }

  lemma LowByte(x: nat)
    ensures x % UINT16 % CACHE == x % CACHE
  {
  }

  lemma NextId(x: nat)
    ensures (x % UINT16 + 1) % UINT16 == (x + 1) % UINT16
  {
  }

  lemma NextSlot(id: Id)
    ensures (id + 1) % UINT16 % CACHE == (id % CACHE + 1) % CACHE
  {
  }

  lemma PoppedKeepsCounts(b: Buffer, start: Id)
    requires Counts(b, start) && b.slots[SlotOf(b.want)].Held?
    ensures Counts(Popped(b, SlotOf(b.want)), start)
    ensures SlotOf(Popped(b, SlotOf(b.want)).want) == (SlotOf(b.want) + 1) % CACHE
  {
    LowByte(start + |b.delivered|);
    NextId(start + |b.delivered|);
    NextSlot(b.want);
  }

  lemma {:induction false} DrainSettles(b: Buffer, start: Id)
    requires Counts(b, start)
    ensures Settled(Drain(b, SlotOf(b.want)), start)
    ensures |Drain(b, SlotOf(b.want)).delivered| - |b.delivered| == Occupied(b.slots) - Occupied(Drain(b, SlotOf(b.want)).slots)
    decreases Occupied(b.slots)
  {
    var i := SlotOf(b.want);
    if b.slots[i].Held? {
      DrainStep(b, i);
      PoppedKeepsCounts(b, start);
      DrainSettles(Popped(b, i), start);
    }
  }

  lemma InsertSettles(b: Buffer, msg: Msg, start: Id)
    requires Settled(b, start)
    ensures Settled(Inserted(b, msg).1, start)
  {
    var i := SlotOf(msg.id);
    if !TooFar(b.want, msg.id) && msg.id == b.want {
      DrainSettles(b.(slots := b.slots[i := Held(msg)]), start);
    }
  }

  lemma {:induction false} RunSettles(start: Id, msgs: seq<Msg>)
    ensures Settled(Run(Start(start), msgs).1, start)
  {
    if msgs != [] {
      RunSettles(start, msgs[..|msgs| - 1]);
      InsertSettles(Run(Start(start), msgs[..|msgs| - 1]).1, msgs[|msgs| - 1], start);
    }
  }

  // How often one message object occurs.

  ghost function One(a: Msg, m: Msg): nat { if a == m then 1 else 0 }

  ghost function Times(s: seq<Msg>, m: Msg): nat {
    if s == [] then 0 else Times(s[..|s| - 1], m) + One(s[|s| - 1], m)
  }

  ghost function InSlot(s: Slot, m: Msg): nat { if s.Held? then One(s.msg, m) else 0 }

  ghost function Waiting(slots: seq<Slot>, m: Msg): nat {
    if slots == [] then 0 else Waiting(slots[..|slots| - 1], m) + InSlot(slots[|slots| - 1], m)
  }

  lemma {:induction false} WaitingUpdate(slots: seq<Slot>, i: nat, s: Slot, m: Msg)
    requires i < |slots|
    ensures Waiting(slots[i := s], m) + InSlot(slots[i], m) == Waiting(slots, m) + InSlot(s, m)
  {
    var n := |slots| - 1;
    if i == n {
      assert slots[i := s][..n] == slots[..n];
    } else {
      WaitingUpdate(slots[..n], i, s, m);
      assert slots[i := s][..n] == slots[..n][i := s];
    }
  }

  lemma {:induction false} TimesAppend(s: seq<Msg>, a: Msg, m: Msg)
    ensures Times(s + [a], m) == Times(s, m) + One(a, m)
  {
    assert (s + [a])[..|s|] == s;
  }

  /** Every place a message object can be. */
  ghost function Places(b: Buffer, m: Msg): nat { Times(b.delivered, m) + Waiting(b.slots, m) + Times(b.refused, m) }

  lemma {:induction false} DrainConserves(b: Buffer, i: nat, m: Msg)
    requires |b.slots| == CACHE && i < CACHE
    ensures Places(Drain(b, i), m) == Places(b, m)
    decreases Occupied(b.slots)
  {
    if b.slots[i].Held? {
      DrainStep(b, i);
      WaitingUpdate(b.slots, i, Empty, m);
      TimesAppend(b.delivered, b.slots[i].msg, m);
      DrainConserves(Popped(b, i), (i + 1) % CACHE, m);
    }
  }

  lemma InsertConserves(b: Buffer, msg: Msg, start: Id, m: Msg)
    requires Settled(b, start)
    ensures Places(Inserted(b, msg).1, m) == Places(b, m) + One(msg, m)
  {
    var i := SlotOf(msg.id);
    WaitingUpdate(b.slots, i, Held(msg), m);
    TimesAppend(b.refused, msg, m);
    DrainConserves(b.(slots := b.slots[i := Held(msg)]), i, m);
  }

  lemma {:induction false} RunConserves(start: Id, msgs: seq<Msg>, m: Msg)
    ensures Places(Run(Start(start), msgs).1, m) == Times(msgs, m)
  {
    if msgs == [] {
      NothingWaits(CACHE, m);
    } else {
      var front := msgs[..|msgs| - 1];
      RunSettles(start, front);
      RunConserves(start, front, m);
      InsertConserves(Run(Start(start), front).1, msgs[|msgs| - 1], start, m);
    }
  }

  lemma {:induction false} NothingWaits(n: nat, m: Msg)
    ensures Waiting(seq(n, _ => Empty), m) == 0
  {
    if n > 0 {
      NothingWaits(n - 1, m);
      assert seq(n, _ => Empty)[..n - 1] == seq(n - 1, _ => Empty);
    }
  }

  /** The unconditional law, for every arrival sequence: the k-th delivered id is `start + k`
      modulo 256, every arrival is in exactly one of delivered, cached and refused, so no
      object is delivered more often than it arrived, and one drain takes at most 256 turns. */
  lemma {:induction false} EveryArrivalSequence(start: Id, msgs: seq<Msg>)
    ensures var b := Run(Start(start), msgs).1;
            && (forall k :: 0 <= k < |b.delivered| ==> SlotOf(b.delivered[k].id) == (start + k) % CACHE)
            && (forall m :: Times(b.delivered, m) + Waiting(b.slots, m) + Times(b.refused, m) == Times(msgs, m))
            && (forall msg :: |Inserted(b, msg).1.delivered| - |b.delivered| <= CACHE)
  {
    RunSettles(start, msgs);
    var b := Run(Start(start), msgs).1;
    forall m ensures Times(b.delivered, m) + Waiting(b.slots, m) + Times(b.refused, m) == Times(msgs, m) {
      RunConserves(start, msgs, m);
    }
    forall msg ensures |Inserted(b, msg).1.delivered| - |b.delivered| <= CACHE {
      OneDrainIsBounded(b, msg, start);
    }
  }

  lemma OneDrainIsBounded(b: Buffer, msg: Msg, start: Id)
    requires Settled(b, start)
    ensures |Inserted(b, msg).1.delivered| - |b.delivered| <= CACHE
  {
    var c := b.(slots := b.slots[SlotOf(msg.id) := Held(msg)]);
    OccupiedBound(c.slots);
    if !TooFar(b.want, msg.id) && msg.id == b.want { DrainSettles(c, start); }
  }

  // ---------------------------------------------------------------- in step with a stream

  /** A consecutive run of messages, numbered from `start` modulo 65536. */
  ghost predicate IsStream(msgs: seq<Msg>, start: Id) {
    forall k :: 0 <= k < |msgs| ==> msgs[k].id == (start + k) % UINT16
  }

  /** A message of the stream that is not delivered yet and less than 256 ahead. */
  ghost predicate Due(b: Buffer, msgs: seq<Msg>, m: Msg) {
    exists l :: |b.delivered| <= l < |msgs| && l < |b.delivered| + CACHE && msgs[l] == m
  }

  /** Delivered is a beginning of the stream, and nothing is cached that is not due. */
  ghost predicate InStep(b: Buffer, msgs: seq<Msg>) {
    b.delivered <= msgs && forall j :: 0 <= j < |b.slots| && b.slots[j].Held? ==> Due(b, msgs, b.slots[j].msg)
  }

  /** Whether Insert takes a message in: it is near, and awaited or its slot is free. */
  predicate Accepts(b: Buffer, m: Msg)
    requires |b.slots| == CACHE
  {
    !TooFar(b.want, m.id) && (m.id == b.want || b.slots[SlotOf(m.id)].Empty?)
  }

  /** A message taken in that is not due. */
  ghost predicate Stray(b: Buffer, msgs: seq<Msg>, m: Msg)
    requires |b.slots| == CACHE
  {
    Accepts(b, m) && !Due(b, msgs, m)
  }

  function Placed(b: Buffer, m: Msg): Buffer
    requires |b.slots| == CACHE
  {
    b.(slots := b.slots[SlotOf(m.id) := Held(m)])
  }

  lemma SlotsApart(x: nat, k: nat, n: nat)
    requires k < n < k + CACHE
    ensures (x + k) % CACHE != (x + n) % CACHE
  {
    var p, q := (x + k) / CACHE, (x + n) / CACHE;
    assert x + k == CACHE * p + (x + k) % CACHE && x + n == CACHE * q + (x + n) % CACHE;
  }

  /** Two positions less than 256 apart that share a slot are one. */
  lemma SameSlot(start: Id, k: nat, l: nat)
    requires SlotOf((start + k) % UINT16) == SlotOf((start + l) % UINT16) && k < l + CACHE && l < k + CACHE
    ensures k == l
  {
    LowByte(start + k);
    LowByte(start + l);
    if k < l { SlotsApart(start, k, l); }
    if l < k { SlotsApart(start, l, k); }
  }

  lemma SlotAt(start: Id, k: nat)
    ensures SlotOf((start + k) % UINT16) == (start + k) % CACHE == (start + k + CACHE) % CACHE
  {
    LowByte(start + k);
  }

  /** Popping takes neither of the ends of the 256 due positions away from the other slots. */
  lemma NotAtTheEnds(start: Id, d: nat, l: nat)
    requires SlotOf((start + l) % UINT16) != SlotOf((start + d) % UINT16)
    ensures l != d && l != d + CACHE
  {
    SlotAt(start, d);
    SlotAt(start, l);
  }

  lemma DueAfterPop(b: Buffer, start: Id, msgs: seq<Msg>, j: nat)
    requires Counts(b, start) && IsStream(msgs, start) && b.slots[SlotOf(b.want)].Held?
    requires j < CACHE && j != SlotOf(b.want) && b.slots[j].Held?
    ensures Due(Popped(b, SlotOf(b.want)), msgs, b.slots[j].msg) <==> Due(b, msgs, b.slots[j].msg)
  {
    var d, m := |b.delivered|, b.slots[j].msg;
    forall l: nat | l < |msgs| && msgs[l] == m ensures l != d && l != d + CACHE {
      NotAtTheEnds(start, d, l);
    }
    assert |Popped(b, SlotOf(b.want)).delivered| == d + 1;
  }

  lemma {:induction false} PopIsDue(b: Buffer, start: Id, msgs: seq<Msg>)
    requires Counts(b, start) && IsStream(msgs, start) && b.slots[SlotOf(b.want)].Held?
    ensures var d, m := |b.delivered|, b.slots[SlotOf(b.want)].msg;
            b.delivered + [m] <= msgs <==> b.delivered <= msgs && Due(b, msgs, m)
  {
    var d, m := |b.delivered|, b.slots[SlotOf(b.want)].msg;
    if b.delivered <= msgs && Due(b, msgs, m) {
      var l :| d <= l < |msgs| && l < d + CACHE && msgs[l] == m;
      SameSlot(start, d, l);
    }
    if b.delivered + [m] <= msgs {
      assert (b.delivered + [m])[d] == msgs[d];
      assert b.delivered == msgs[..d];
    }
  }

  lemma PopInStepIff(b: Buffer, start: Id, msgs: seq<Msg>)
    requires Counts(b, start) && IsStream(msgs, start) && b.slots[SlotOf(b.want)].Held?
    ensures InStep(Popped(b, SlotOf(b.want)), msgs) <==> InStep(b, msgs)
  {
    var i := SlotOf(b.want);
    PopIsDue(b, start, msgs);
    forall j | 0 <= j < CACHE && j != i && b.slots[j].Held?
      ensures Due(Popped(b, i), msgs, b.slots[j].msg) <==> Due(b, msgs, b.slots[j].msg)
    {
      DueAfterPop(b, start, msgs, j);
    }
    assert forall j :: 0 <= j < CACHE && j != i ==> Popped(b, i).slots[j] == b.slots[j];
  }

  lemma {:induction false} DrainInStepIff(b: Buffer, start: Id, msgs: seq<Msg>)
    requires Counts(b, start) && IsStream(msgs, start)
    ensures InStep(Drain(b, SlotOf(b.want)), msgs) <==> InStep(b, msgs)
    decreases Occupied(b.slots)
  {
    var i := SlotOf(b.want);
    if b.slots[i].Held? {
      DrainStep(b, i);
      PoppedKeepsCounts(b, start);
      PopInStepIff(b, start, msgs);
      DrainInStepIff(Popped(b, i), start, msgs);
    }
  }

  lemma PlacedInStepIff(b: Buffer, msgs: seq<Msg>, m: Msg)
    requires |b.slots| == CACHE && b.slots[SlotOf(m.id)].Empty?
    ensures InStep(Placed(b, m), msgs) <==> InStep(b, msgs) && Due(b, msgs, m)
  {
    var c := Placed(b, m);
    assert c.slots[SlotOf(m.id)] == Held(m);
    forall x ensures Due(c, msgs, x) <==> Due(b, msgs, x) {}
    assert forall j :: 0 <= j < CACHE && b.slots[j].Held? ==> c.slots[j] == b.slots[j];
  }

  /** The exact effect of one insertion, of any message: the buffer is in step with the stream
      afterwards if and only if it was before and the message was not a stray. In particular it
      never gets back into step. */
  lemma InsertInStepIff(b: Buffer, start: Id, msgs: seq<Msg>, m: Msg)
    requires Settled(b, start) && IsStream(msgs, start)
    ensures InStep(Inserted(b, m).1, msgs) <==> InStep(b, msgs) && !Stray(b, msgs, m)
  {
    if Accepts(b, m) {
      PlacedInStepIff(b, msgs, m);
      if m.id == b.want { DrainInStepIff(Placed(b, m), start, msgs); }
    } else {
      var c := Inserted(b, m).1;
      assert c.slots == b.slots && c.delivered == b.delivered;
      forall x ensures Due(c, msgs, x) <==> Due(b, msgs, x) {}
    }
  }

  /** No arrival was a stray in the buffer it found. */
  ghost predicate NoStray(start: Id, msgs: seq<Msg>, arrivals: seq<Msg>) {
    arrivals == [] ||
    var n := |arrivals| - 1;
    NoStray(start, msgs, arrivals[..n]) && !Stray(Run(Start(start), arrivals[..n]).1, msgs, arrivals[n])
  }

  /** Over every arrival sequence: what was delivered is a beginning of the stream, and nothing
      but due messages is cached, if and only if no arrival was a stray. */
  lemma {:induction false} RunInStepIff(start: Id, msgs: seq<Msg>, arrivals: seq<Msg>)
    requires IsStream(msgs, start)
    ensures InStep(Run(Start(start), arrivals).1, msgs) <==> NoStray(start, msgs, arrivals)
  {
    if arrivals != [] {
      var front, last := arrivals[..|arrivals| - 1], arrivals[|arrivals| - 1];
      RunSettles(start, front);
      RunInStepIff(start, msgs, front);
      InsertInStepIff(Run(Start(start), front).1, start, msgs, last);
    }
  }

  /** A message of position `k` that was delivered before, is near, and finds its slot free. */
  ghost predicate Stale(b: Buffer, msgs: seq<Msg>, k: nat)
    requires |b.slots| == CACHE && k < |msgs|
  {
    k < |b.delivered| && !TooFar(b.want, msgs[k].id) && b.slots[SlotOf(msgs[k].id)].Empty?
  }

  lemma IdsDiffer(start: Id, k: nat, l: nat)
    requires k < l < k + UINT16
    ensures (start + k) % UINT16 != (start + l) % UINT16
  {
    var p, q := (start + k) / UINT16, (start + l) / UINT16;
    assert start + k == UINT16 * p + (start + k) % UINT16 && start + l == UINT16 * q + (start + l) % UINT16;
  }

  lemma DeliveredIsNotDue(b: Buffer, start: Id, msgs: seq<Msg>, k: nat)
    requires Counts(b, start) && IsStream(msgs, start) && |b.delivered| <= |msgs| < UINT16 && k < |b.delivered|
    ensures !Due(b, msgs, msgs[k]) && msgs[k].id != b.want
  {
    forall l: nat | |b.delivered| <= l < |msgs| ensures msgs[l] != msgs[k] {
      IdsDiffer(start, k, l);
    }
    IdsDiffer(start, k, |b.delivered|);
  }

  lemma NearIsDue(b: Buffer, start: Id, msgs: seq<Msg>, k: nat)
    requires Counts(b, start) && IsStream(msgs, start) && |b.delivered| <= k < |msgs| < UINT16 - COMPARE
    requires !TooFar(b.want, msgs[k].id)
    ensures Due(b, msgs, msgs[k])
  {
    NearIsAhead(start, |b.delivered|, k);
    assert k < |b.delivered| + CACHE && msgs[k] == msgs[k];
  }

  /** In a stream that stops a window short of the id space the strays are exactly the stale ones. */
  lemma StrayIffStale(b: Buffer, start: Id, msgs: seq<Msg>, k: nat)
    requires Settled(b, start) && IsStream(msgs, start) && |b.delivered| <= |msgs| < UINT16 - COMPARE && k < |msgs|
    ensures Stray(b, msgs, msgs[k]) <==> Stale(b, msgs, k)
  {
    if k < |b.delivered| {
      DeliveredIsNotDue(b, start, msgs, k);
    } else if !TooFar(b.want, msgs[k].id) {
      NearIsDue(b, start, msgs, k);
    }
  }

  lemma NearIsAhead(start: Id, d: nat, k: nat)
    requires d <= k < d + UINT16 - COMPARE && Abs((start + k) % UINT16 - (start + d) % UINT16) <= COMPARE
    ensures k <= d + COMPARE
  {
  }

  /** So an arriving message of the stream keeps the buffer in step if and only if it is not stale. */
  lemma StaysInStepUnlessStale(b: Buffer, start: Id, msgs: seq<Msg>, k: nat)
    requires Settled(b, start) && IsStream(msgs, start) && InStep(b, msgs) && k < |msgs| < UINT16 - COMPARE
    ensures InStep(Inserted(b, msgs[k]).1, msgs) <==> !Stale(b, msgs, k)
  {
    InsertInStepIff(b, start, msgs, msgs[k]);
    StrayIffStale(b, start, msgs, k);
  }

  // ---------------------------------------------------------------- complete delivery

  /** How often a message object was taken in. */
  ghost function Admissions(start: Id, arrivals: seq<Msg>, m: Msg): nat {
    if arrivals == [] then 0 else
    var n := |arrivals| - 1;
    Admissions(start, arrivals[..n], m) + if Accepts(Run(Start(start), arrivals[..n]).1, arrivals[n]) then One(arrivals[n], m) else 0
  }

  lemma {:induction false} DrainRefusesNone(b: Buffer, i: nat)
    requires |b.slots| == CACHE && i < CACHE
    ensures Drain(b, i).refused == b.refused
    decreases Occupied(b.slots)
  {
    if b.slots[i].Held? {
      DrainStep(b, i);
      DrainRefusesNone(Popped(b, i), (i + 1) % CACHE);
    }
  }

  lemma {:induction false} AdmittedIsKept(start: Id, arrivals: seq<Msg>, m: Msg)
    ensures var b := Run(Start(start), arrivals).1;
            Times(b.delivered, m) + Waiting(b.slots, m) == Admissions(start, arrivals, m)
  {
    if arrivals == [] {
      NothingWaits(CACHE, m);
    } else {
      var front, last := arrivals[..|arrivals| - 1], arrivals[|arrivals| - 1];
      var b := Run(Start(start), front).1;
      AdmittedIsKept(start, front, m);
      RunSettles(start, front);
      InsertConserves(b, last, start, m);
      TimesAppend(b.refused, last, m);
      if Accepts(b, last) { DrainRefusesNone(Placed(b, last), SlotOf(last.id)); }
    }
  }

  lemma {:induction false} TimesOfPrefix(s: seq<Msg>, n: nat, m: Msg)
    requires n <= |s|
    ensures Times(s[..n], m) <= Times(s, m)
  {
    if n < |s| {
      TimesOfPrefix(s[..|s| - 1], n, m);
      assert s[..|s| - 1][..n] == s[..n];
    } else {
      assert s[..n] == s;
    }
  }

  lemma {:induction false} WaitingIsHeld(slots: seq<Slot>, m: Msg) returns (j: nat)
    requires Waiting(slots, m) > 0
    ensures j < |slots| && slots[j] == Held(m)
  {
    var n := |slots| - 1;
    if slots[n] == Held(m) { j := n; } else { j := WaitingIsHeld(slots[..n], m); }
  }

  ghost predicate NothingCached(b: Buffer) { forall j :: 0 <= j < |b.slots| ==> b.slots[j].Empty? }

  /** Exactly when reliable, ordered delivery is complete, for any arrival sequence whatever:
      the whole stream is delivered in order and nothing is left cached if and only if no arrival
      was a stray and every message of the stream was taken in as often as it occurs there. */
  lemma {:induction false} DeliversTheWholeRun(start: Id, msgs: seq<Msg>, arrivals: seq<Msg>)
    requires IsStream(msgs, start)
    ensures var b := Run(Start(start), arrivals).1;
            b.delivered == msgs && NothingCached(b)
            <==> NoStray(start, msgs, arrivals) && forall k :: 0 <= k < |msgs| ==> Times(msgs, msgs[k]) <= Admissions(start, arrivals, msgs[k])
  {
    var b := Run(Start(start), arrivals).1;
    RunInStepIff(start, msgs, arrivals);
    RunSettles(start, arrivals);
    forall m ensures Times(b.delivered, m) + Waiting(b.slots, m) == Admissions(start, arrivals, m) {
      AdmittedIsKept(start, arrivals, m);
    }
    if InStep(b, msgs) && forall k :: 0 <= k < |msgs| ==> Times(msgs, msgs[k]) <= Admissions(start, arrivals, msgs[k]) {
      AllAdmittedIsAllDelivered(b, start, msgs);
    }
  }

  /** A message taken in often enough and still missing waits in the awaited slot. */
  lemma {:induction false} MissingIsAwaited(b: Buffer, start: Id, msgs: seq<Msg>)
    requires IsStream(msgs, start) && Counts(b, start) && b.delivered <= msgs && |b.delivered| < |msgs|
    requires var m := msgs[|b.delivered|];
             Times(msgs, m) <= Times(b.delivered, m) + Waiting(b.slots, m)
    ensures b.slots[SlotOf(b.want)].Held?
  {
    var d := |b.delivered|;
    var m := msgs[d];
    assert msgs[..d + 1] == b.delivered + [m];
    TimesAppend(b.delivered, m, m);
    TimesOfPrefix(msgs, d + 1, m);
    var j := WaitingIsHeld(b.slots, m);
  }

  lemma {:induction false} AllAdmittedIsAllDelivered(b: Buffer, start: Id, msgs: seq<Msg>)
    requires IsStream(msgs, start) && Settled(b, start) && InStep(b, msgs)
    requires forall k :: 0 <= k < |msgs| ==> Times(msgs, msgs[k]) <= Times(b.delivered, msgs[k]) + Waiting(b.slots, msgs[k])
    ensures b.delivered == msgs && NothingCached(b)
  {
    if |b.delivered| < |msgs| { MissingIsAwaited(b, start, msgs); }
  }

  // ---------------------------------------------------------------- what Insert answers

  lemma IdGap(start: Id, d: nat, k: nat)
    requires d <= k <= d + COMPARE && (start + d) % UINT16 <= (start + k) % UINT16
    ensures (start + k) % UINT16 - (start + d) % UINT16 == k - d
  {
  }

  ghost predicate Positions(msgs: seq<Msg>, order: seq<nat>) {
    forall i :: 0 <= i < |order| ==> order[i] < |msgs|
  }

  /** The messages at the given positions of the stream, in order of arrival. */
  ghost function Pick(msgs: seq<Msg>, order: seq<nat>): (r: seq<Msg>)
    requires Positions(msgs, order)
    ensures |r| == |order| && forall i :: 0 <= i < |r| ==> r[i] == msgs[order[i]]
  {
    seq(|order|, i requires 0 <= i < |order| => msgs[order[i]])
  }

  /** The positions that have arrived: all that were delivered, none beyond the window, and, of
      the next 256, exactly those whose slots are taken. */
  ghost predicate Matches(b: Buffer, start: Id, msgs: seq<Msg>, order: seq<nat>) {
    var d := |b.delivered|;
    && |b.slots| == CACHE
    && (forall k: nat :: k < d ==> k in order)
    && (forall k :: k in order && k >= d ==> k < |msgs| && k <= d + COMPARE && b.want <= msgs[k].id)
    && (forall k: nat :: d <= k < d + CACHE ==> (k in order <==> b.slots[(start + k) % CACHE].Held?))
  }

  /** The hypothesis on one arrival: a new message from the next hundred ids, counted as plain
      integers, or a repeat of one that still waits. */
  ghost predicate Welcome(b: Buffer, msgs: seq<Msg>, before: seq<nat>, k: nat) {
    && k < |msgs|
    && if k in before then k >= |b.delivered|
       else |b.delivered| <= k <= |b.delivered| + COMPARE && b.want <= msgs[k].id
  }

  lemma AheadStaysAhead(b: Buffer, start: Id, msgs: seq<Msg>, k: nat)
    requires Counts(b, start) && IsStream(msgs, start) && k < |msgs|
    requires |b.delivered| < k <= |b.delivered| + COMPARE && b.want <= msgs[k].id
    ensures (b.want + 1) % UINT16 <= msgs[k].id
  {
    IdGap(start, |b.delivered|, k);
  }

  lemma PopMatches(b: Buffer, start: Id, msgs: seq<Msg>, order: seq<nat>)
    requires Counts(b, start) && IsStream(msgs, start) && b.slots[SlotOf(b.want)].Held? && Matches(b, start, msgs, order)
    ensures Matches(Popped(b, SlotOf(b.want)), start, msgs, order)
  {
    var d, i := |b.delivered|, SlotOf(b.want);
    var p := Popped(b, i);
    SlotAt(start, d);
    assert d in order;
    forall k | k in order && k >= d + 1 ensures p.want <= msgs[k].id {
      AheadStaysAhead(b, start, msgs, k);
    }
    forall k: nat | d + 1 <= k < d + 1 + CACHE ensures k in order <==> p.slots[(start + k) % CACHE].Held? {
      if k < d + CACHE {
        SlotsApart(start, d, k);
        assert p.slots[(start + k) % CACHE] == b.slots[(start + k) % CACHE];
      } else {
        assert start + k == start + d + CACHE;
        assert p.slots[i].Empty?;
      }
    }
  }

  lemma {:induction false} DrainMatches(b: Buffer, start: Id, msgs: seq<Msg>, order: seq<nat>)
    requires Counts(b, start) && IsStream(msgs, start) && Matches(b, start, msgs, order)
    ensures Matches(Drain(b, SlotOf(b.want)), start, msgs, order)
    decreases Occupied(b.slots)
  {
    var i := SlotOf(b.want);
    if b.slots[i].Held? {
      DrainStep(b, i);
      PoppedKeepsCounts(b, start);
      PopMatches(b, start, msgs, order);
      DrainMatches(Popped(b, i), start, msgs, order);
    }
  }

  lemma PlacedMatches(b: Buffer, start: Id, msgs: seq<Msg>, before: seq<nat>, k: nat)
    requires IsStream(msgs, start) && Matches(b, start, msgs, before) && k !in before && Welcome(b, msgs, before, k)
    ensures Matches(Placed(b, msgs[k]), start, msgs, before + [k])
  {
    var d, c := |b.delivered|, Placed(b, msgs[k]);
    LowByte(start + k);
    forall l: nat | d <= l < d + CACHE ensures l in before + [k] <==> c.slots[(start + l) % CACHE].Held? {
      if l < k { SlotsApart(start, l, k); }
      if k < l { SlotsApart(start, k, l); }
    }
  }

  /** A welcome arrival is answered 1 exactly when it repeats an earlier one, is no stray, and
      leaves the arrived positions matched. */
  lemma ArrivalMatches(b: Buffer, start: Id, msgs: seq<Msg>, before: seq<nat>, k: nat)
    requires IsStream(msgs, start) && Settled(b, start) && Matches(b, start, msgs, before) && Welcome(b, msgs, before, k)
    ensures Inserted(b, msgs[k]).0 == if k in before then 1 else 0
    ensures Matches(Inserted(b, msgs[k]).1, start, msgs, before + [k]) && !Stray(b, msgs, msgs[k])
  {
    var d := |b.delivered|;
    LowByte(start + k);
    LowByte(start + d);
    IdGap(start, d, k);
    assert !TooFar(b.want, msgs[k].id);
    if k !in before {
      PlacedMatches(b, start, msgs, before, k);
      assert Due(b, msgs, msgs[k]);
      if k == d { DrainMatches(Placed(b, msgs[k]), start, msgs, before + [k]); }
    }
  }

  /** Every arrival is welcome to the buffer the earlier ones left. */
  ghost predicate Welcomed(start: Id, msgs: seq<Msg>, order: seq<nat>)
    requires Positions(msgs, order)
  {
    order == [] ||
    var n := |order| - 1;
    Welcomed(start, msgs, order[..n]) && Welcome(Run(Start(start), Pick(msgs, order[..n])).1, msgs, order[..n], order[n])
  }

  /** What each Insert should return: 1 for a repeat, 0 for a new message. */
  ghost function Answers(order: seq<nat>): (r: seq<nat>)
    ensures |r| == |order| && forall i :: 0 <= i < |order| ==> r[i] == if order[i] in order[..i] then 1 else 0
  {
    seq(|order|, i requires 0 <= i < |order| => if order[i] in order[..i] then 1 else 0)
  }

  lemma {:induction false} AnswersAppend(order: seq<nat>)
    requires order != []
    ensures var n := |order| - 1;
            Answers(order) == Answers(order[..n]) + [if order[n] in order[..n] then 1 else 0]
  {
    var n := |order| - 1;
    forall i | 0 <= i < n ensures Answers(order)[i] == Answers(order[..n])[i] {
      assert order[..n][..i] == order[..i];
    }
  }

  lemma {:induction false} RunOneMore(b: Buffer, arrivals: seq<Msg>, m: Msg)
    requires |b.slots| == CACHE
    ensures Run(b, arrivals + [m]).0 == Run(b, arrivals).0 + [Inserted(Run(b, arrivals).1, m).0]
    ensures Run(b, arrivals + [m]).1 == Inserted(Run(b, arrivals).1, m).1
  {
    assert (arrivals + [m])[..|arrivals|] == arrivals;
  }

  lemma {:induction false} NoStrayOneMore(start: Id, msgs: seq<Msg>, arrivals: seq<Msg>, m: Msg)
    requires NoStray(start, msgs, arrivals) && !Stray(Run(Start(start), arrivals).1, msgs, m)
    ensures NoStray(start, msgs, arrivals + [m])
  {
    assert (arrivals + [m])[..|arrivals|] == arrivals;
  }

  lemma PickOneMore(msgs: seq<Msg>, order: seq<nat>)
    requires order != [] && Positions(msgs, order)
    ensures Pick(msgs, order) == Pick(msgs, order[..|order| - 1]) + [msgs[order[|order| - 1]]]
  {
  }

  /** The buffer after the first `order`. */
  ghost function Reached(start: Id, msgs: seq<Msg>, order: seq<nat>): (b: Buffer)
    requires Positions(msgs, order)
    ensures |b.slots| == CACHE
  {
    Run(Start(start), Pick(msgs, order)).1
  }

  lemma {:induction false} ReachedOneMore(start: Id, msgs: seq<Msg>, order: seq<nat>)
    requires order != [] && Positions(msgs, order)
    ensures var front, m := order[..|order| - 1], msgs[order[|order| - 1]];
            && Reached(start, msgs, order) == Inserted(Reached(start, msgs, front), m).1
            && Run(Start(start), Pick(msgs, order)).0
               == Run(Start(start), Pick(msgs, front)).0 + [Inserted(Reached(start, msgs, front), m).0]
            && (NoStray(start, msgs, Pick(msgs, front)) && !Stray(Reached(start, msgs, front), msgs, m)
                ==> NoStray(start, msgs, Pick(msgs, order)))
  {
    var front, m := order[..|order| - 1], msgs[order[|order| - 1]];
    PickOneMore(msgs, order);
    RunOneMore(Start(start), Pick(msgs, front), m);
    if NoStray(start, msgs, Pick(msgs, front)) && !Stray(Reached(start, msgs, front), msgs, m) {
      NoStrayOneMore(start, msgs, Pick(msgs, front), m);
    }
  }

  lemma {:induction false} WelcomeLast(start: Id, msgs: seq<Msg>, order: seq<nat>)
    requires IsStream(msgs, start) && order != [] && Positions(msgs, order) && Welcomed(start, msgs, order)
    requires Matches(Reached(start, msgs, order[..|order| - 1]), start, msgs, order[..|order| - 1])
    ensures var front, k := order[..|order| - 1], order[|order| - 1];
            var b := Reached(start, msgs, front);
            && Inserted(b, msgs[k]).0 == (if k in front then 1 else 0) && !Stray(b, msgs, msgs[k])
            && Matches(Inserted(b, msgs[k]).1, start, msgs, order)
  {
    var front, k := order[..|order| - 1], order[|order| - 1];
    RunSettles(start, Pick(msgs, front));
    ArrivalMatches(Reached(start, msgs, front), start, msgs, front, k);
    assert order == front + [k];
  }

  lemma {:induction false} RunMatches(start: Id, msgs: seq<Msg>, order: seq<nat>)
    requires IsStream(msgs, start) && Positions(msgs, order) && Welcomed(start, msgs, order)
    ensures Matches(Reached(start, msgs, order), start, msgs, order) && NoStray(start, msgs, Pick(msgs, order))
    decreases |order|
  {
    if order != [] {
      RunMatches(start, msgs, order[..|order| - 1]);
      WelcomeLast(start, msgs, order);
      ReachedOneMore(start, msgs, order);
    }
  }

  lemma {:induction false} RunAnswers(start: Id, msgs: seq<Msg>, order: seq<nat>)
    requires IsStream(msgs, start) && Positions(msgs, order) && Welcomed(start, msgs, order)
    ensures Run(Start(start), Pick(msgs, order)).0 == Answers(order)
    decreases |order|
  {
    if order != [] {
      RunAnswers(start, msgs, order[..|order| - 1]);
      RunMatches(start, msgs, order[..|order| - 1]);
      WelcomeLast(start, msgs, order);
      ReachedOneMore(start, msgs, order);
      AnswersAppend(order);
    }
  }

  /** Any arrival order in the window, with repeats of cached messages, in which every message
      of the run arrives, delivers exactly the run in order, leaves nothing cached, and is
      answered 1 exactly for the repeats. */
  lemma {:induction false} WelcomedRunIsWhole(start: Id, msgs: seq<Msg>, order: seq<nat>)
    requires IsStream(msgs, start) && Positions(msgs, order) && Welcomed(start, msgs, order)
    requires forall k :: 0 <= k < |msgs| ==> k in order
    ensures var (rets, b) := Run(Start(start), Pick(msgs, order));
            && b.delivered == msgs && NothingCached(b)
            && (forall i :: 0 <= i < |order| ==> rets[i] == if order[i] in order[..i] then 1 else 0)
  {
    RunMatches(start, msgs, order);
    RunAnswers(start, msgs, order);
    RunInStepIff(start, msgs, Pick(msgs, order));
    RunSettles(start, Pick(msgs, order));
    AllArrivedIsAllDelivered(Run(Start(start), Pick(msgs, order)).1, start, msgs, order);
  }

  lemma AllArrivedIsAllDelivered(b: Buffer, start: Id, msgs: seq<Msg>, order: seq<nat>)
    requires IsStream(msgs, start) && Settled(b, start) && InStep(b, msgs) && Matches(b, start, msgs, order)
    requires forall k :: 0 <= k < |msgs| ==> k in order
    ensures b.delivered == msgs && NothingCached(b)
  {
    var d := |b.delivered|;
    SlotAt(start, d);
    assert d < |msgs| ==> d in order;
  }

  /** The hypothesis in ids alone: each position once, each id within the next hundred on arrival. */
  ghost predicate EachOnceInWindow(start: Id, msgs: seq<Msg>, order: seq<nat>)
    requires Positions(msgs, order)
  {
    order == [] ||
    var n := |order| - 1;
    var b := Run(Start(start), Pick(msgs, order[..n])).1;
    EachOnceInWindow(start, msgs, order[..n]) && order[n] !in order[..n] && b.want <= msgs[order[n]].id <= b.want + COMPARE
  }

  lemma GapBelowIds(start: Id, d: nat, k: nat)
    requires d <= k < d + UINT16 && 0 <= (start + k) % UINT16 - (start + d) % UINT16 <= COMPARE
    ensures k - d == (start + k) % UINT16 - (start + d) % UINT16
  {
  }

  lemma WindowIsWelcome(b: Buffer, start: Id, msgs: seq<Msg>, before: seq<nat>, k: nat)
    requires IsStream(msgs, start) && |msgs| <= UINT16 && Counts(b, start) && Matches(b, start, msgs, before)
    requires k < |msgs| && k !in before && b.want <= msgs[k].id <= b.want + COMPARE
    ensures Welcome(b, msgs, before, k)
  {
    assert |b.delivered| <= k;
    GapBelowIds(start, |b.delivered|, k);
  }

  lemma {:induction false} IdWindowsWelcome(start: Id, msgs: seq<Msg>, order: seq<nat>)
    requires IsStream(msgs, start) && |msgs| <= UINT16 && Positions(msgs, order) && EachOnceInWindow(start, msgs, order)
    ensures Welcomed(start, msgs, order)
    decreases |order|
  {
    if order != [] {
      var n := |order| - 1;
      IdWindowsWelcome(start, msgs, order[..n]);
      RunMatches(start, msgs, order[..n]);
      RunSettles(start, Pick(msgs, order[..n]));
      WindowIsWelcome(Run(Start(start), Pick(msgs, order[..n])).1, start, msgs, order[..n], order[n]);
    }
  }

  lemma {:induction false} NoneRepeats(start: Id, msgs: seq<Msg>, order: seq<nat>, i: nat)
    requires Positions(msgs, order) && EachOnceInWindow(start, msgs, order) && i < |order|
    ensures order[i] !in order[..i]
    decreases |order|
  {
    var n := |order| - 1;
    if i < n {
      NoneRepeats(start, msgs, order[..n], i);
      assert order[..n][..i] == order[..i];
    }
  }

  /** Any arrival order of at most 65536 consecutive ids, each once and each in the window on
      arrival, is delivered in order and whole, and Insert always returns 0. */
  lemma {:induction false} DeliversAnyPermutation(start: Id, msgs: seq<Msg>, order: seq<nat>)
    requires IsStream(msgs, start) && |msgs| <= UINT16 && Positions(msgs, order) && EachOnceInWindow(start, msgs, order)
    requires forall k :: 0 <= k < |msgs| ==> k in order
    ensures var (rets, b) := Run(Start(start), Pick(msgs, order));
            && b.delivered == msgs && NothingCached(b)
            && (forall i :: 0 <= i < |order| ==> rets[i] == 0)
  {
    IdWindowsWelcome(start, msgs, order);
    WelcomedRunIsWhole(start, msgs, order);
    forall i | 0 <= i < |order| ensures order[i] !in order[..i] {
      NoneRepeats(start, msgs, order, i);
    }
  }

  // ---------------------------------------------------------------- what becomes of a stray

  lemma {:induction false} RunAppend(b: Buffer, first: seq<Msg>, later: seq<Msg>)
    requires |b.slots| == CACHE
    ensures Run(b, first + later).1 == Run(Run(b, first).1, later).1
  {
    if later == [] {
      assert first + later == first;
    } else {
      var n := |later| - 1;
      RunAppend(b, first, later[..n]);
      assert (first + later)[..|first + later| - 1] == first + later[..n];
    }
  }

  /** Position `q` was given `m`, or will be: `m` waits in its slot. */
  ghost predicate Reserved(b: Buffer, start: Id, q: nat, m: Msg) {
    && |b.slots| == CACHE
    && if q < |b.delivered| then b.delivered[q] == m
       else q < |b.delivered| + CACHE && b.slots[(start + q) % CACHE] == Held(m)
  }

  lemma {:induction false} DrainKeepsReserved(b: Buffer, start: Id, q: nat, m: Msg)
    requires Counts(b, start) && Reserved(b, start, q, m)
    ensures Reserved(Drain(b, SlotOf(b.want)), start, q, m)
    decreases Occupied(b.slots)
  {
    var d, i := |b.delivered|, SlotOf(b.want);
    if b.slots[i].Held? {
      LowByte(start + d);
      if d < q < d + CACHE { SlotsApart(start, d, q); }
      DrainStep(b, i);
      PoppedKeepsCounts(b, start);
      DrainKeepsReserved(Popped(b, i), start, q, m);
    }
  }

  lemma InsertKeepsReserved(b: Buffer, start: Id, q: nat, m: Msg, msg: Msg)
    requires Settled(b, start) && Reserved(b, start, q, m)
    ensures Reserved(Inserted(b, msg).1, start, q, m)
  {
    if Accepts(b, msg) && msg.id == b.want { DrainKeepsReserved(Placed(b, msg), start, q, m); }
  }

  lemma {:induction false} RunKeepsReserved(start: Id, first: seq<Msg>, later: seq<Msg>, q: nat, m: Msg)
    requires Reserved(Run(Start(start), first).1, start, q, m)
    ensures Reserved(Run(Start(start), first + later).1, start, q, m)
  {
    if later == [] {
      assert first + later == first;
    } else {
      var n := |later| - 1;
      RunKeepsReserved(start, first, later[..n], q, m);
      RunSettles(start, first + later[..n]);
      InsertKeepsReserved(Run(Start(start), first + later[..n]).1, start, q, m, later[n]);
      assert (first + later)[..|first + later| - 1] == first + later[..n];
    }
  }

  /** The position a message waits for: the next one with its slot. */
  function Turn(b: Buffer, start: Id, m: Msg): (q: nat)
    ensures |b.delivered| <= q < |b.delivered| + CACHE && (start + q) % CACHE == SlotOf(m.id)
  {
    |b.delivered| + (SlotOf(m.id) - (start + |b.delivered|)) % CACHE
  }

  lemma PlacedIsReserved(b: Buffer, start: Id, m: Msg)
    requires Settled(b, start) && Accepts(b, m)
    ensures Reserved(Inserted(b, m).1, start, Turn(b, start, m), m)
  {
    var q := Turn(b, start, m);
    assert Reserved(Placed(b, m), start, q, m);
    if m.id == b.want { DrainKeepsReserved(Placed(b, m), start, q, m); }
  }

  /** A stray always comes out, in the place of another message: whatever arrives after it, once
      the buffer has delivered far enough, the position that was next for its slot holds the
      stray and not the message of the stream. */
  lemma {:induction false} StrayComesOut(start: Id, msgs: seq<Msg>, first: seq<Msg>, stray: Msg, later: seq<Msg>)
    requires IsStream(msgs, start) && Stray(Run(Start(start), first).1, msgs, stray)
    ensures var q := Turn(Run(Start(start), first).1, start, stray);
            var b := Run(Start(start), first + [stray] + later).1;
            (q < |b.delivered| ==> b.delivered[q] == stray) && (q < |msgs| ==> msgs[q] != stray)
  {
    var b := Run(Start(start), first).1;
    RunSettles(start, first);
    PlacedIsReserved(b, start, stray);
    assert (first + [stray])[..|first|] == first;
    RunKeepsReserved(start, first + [stray], later, Turn(b, start, stray), stray);
  }

  /** Nothing waits but one stale message. */
  ghost predicate OnlyHolds(b: Buffer, stale: Msg) {
    && |b.slots| == CACHE
    && forall j :: 0 <= j < CACHE ==> b.slots[j] == if j == SlotOf(stale.id) then Held(stale) else Empty
  }

  lemma AwaitedIsPopped(b: Buffer, stale: Msg, msg: Msg)
    requires OnlyHolds(b, stale) && msg.id == b.want && SlotOf(b.want) != SlotOf(stale.id) && b.want + 1 < UINT16
    ensures Inserted(b, msg).1 == Drain(b.(want := b.want + 1, delivered := b.delivered + [msg]), SlotOf(b.want + 1))
  {
    var i := SlotOf(b.want);
    AwaitedFills(b, msg);
    NextSlot(b.want);
    DrainStep(b.(slots := b.slots[i := Held(msg)]), i);
    FilledThenPopped(b, i, msg);
  }

  lemma AwaitedFills(b: Buffer, msg: Msg)
    requires |b.slots| == CACHE && msg.id == b.want && b.slots[SlotOf(b.want)].Empty?
    ensures Inserted(b, msg).1 == Drain(b.(slots := b.slots[SlotOf(b.want) := Held(msg)]), SlotOf(b.want))
  {
  }

  /** A message put into an empty slot and popped leaves the slots as they were. */
  lemma FilledThenPopped(b: Buffer, i: nat, msg: Msg)
    requires i < CACHE && |b.slots| == CACHE && b.slots[i].Empty? && b.want + 1 < UINT16
    ensures Popped(b.(slots := b.slots[i := Held(msg)]), i) == b.(want := b.want + 1, delivered := b.delivered + [msg])
  {
    assert b.slots[i := Held(msg)][i := Empty] == b.slots;
  }

  /** With the next slot empty, the awaited message goes straight through. */
  lemma AwaitedGoesThrough(b: Buffer, stale: Msg, msg: Msg)
    requires OnlyHolds(b, stale) && msg.id == b.want && SlotOf(b.want) != SlotOf(stale.id) && b.want + 1 < UINT16
    requires SlotOf(b.want + 1) != SlotOf(stale.id)
    ensures Inserted(b, msg).1 == b.(want := b.want + 1, delivered := b.delivered + [msg])
  {
    AwaitedIsPopped(b, stale, msg);
  }

  /** With the stale message in the next slot, it takes it along. */
  lemma AwaitedTakesStale(b: Buffer, stale: Msg, msg: Msg)
    requires OnlyHolds(b, stale) && msg.id == b.want && SlotOf(b.want) != SlotOf(stale.id) && b.want + 1 < UINT16
    requires SlotOf(b.want + 1) == SlotOf(stale.id)
    ensures Inserted(b, msg).1.delivered == b.delivered + [msg] + [stale]
  {
    AwaitedIsPopped(b, stale, msg);
    var p, j := b.(want := b.want + 1, delivered := b.delivered + [msg]), SlotOf(stale.id);
    DrainStep(p, j);
    assert Popped(p, j).slots[(j + 1) % CACHE].Empty?;
  }

  /** The awaited messages from `b.want` up to the slot of the stale one. */
  ghost predicate LeadsTo(b: Buffer, stale: Msg, next: seq<Msg>) {
    && 1 <= |next| < CACHE && b.want + |next| < UINT16 && SlotOf(stale.id) == SlotOf(b.want + |next|)
    && forall k :: 0 <= k < |next| ==> next[k].id == b.want + k
  }

  /** The buffer once `n` of the awaited messages have gone through. */
  ghost function Through(b: Buffer, next: seq<Msg>, n: nat): Buffer
    requires n <= |next| && b.want + n < UINT16
  {
    b.(want := b.want + n, delivered := b.delivered + next[..n])
  }

  lemma OneMoreThrough(b: Buffer, stale: Msg, next: seq<Msg>, n: nat)
    requires OnlyHolds(b, stale) && LeadsTo(b, stale, next) && 0 < n < |next|
    ensures Inserted(Through(b, next, n - 1), next[n - 1]).1 == Through(b, next, n)
  {
    SlotsApart(b.want, n - 1, |next|);
    SlotsApart(b.want, n, |next|);
    AwaitedGoesThrough(Through(b, next, n - 1), stale, next[n - 1]);
    assert next[..n - 1] + [next[n - 1]] == next[..n];
  }

  lemma {:induction false} UpToTheStale(b: Buffer, stale: Msg, next: seq<Msg>, n: nat)
    requires OnlyHolds(b, stale) && LeadsTo(b, stale, next) && n < |next|
    ensures Run(b, next[..n]).1 == Through(b, next, n)
  {
    if n > 0 {
      UpToTheStale(b, stale, next, n - 1);
      OneMoreThrough(b, stale, next, n);
      RunOneMore(b, next[..n - 1], next[n - 1]);
      assert next[..n - 1] + [next[n - 1]] == next[..n];
    } else {
      assert b.delivered + next[..0] == b.delivered;
    }
  }

  /** With the messages before its next turn arriving in order, the stale message follows them. */
  lemma {:induction false} PassedIdIsDelivered(b: Buffer, stale: Msg, next: seq<Msg>)
    requires OnlyHolds(b, stale) && LeadsTo(b, stale, next)
    ensures Run(b, next).1.delivered == b.delivered + next + [stale]
  {
    var n := |next| - 1;
    UpToTheStale(b, stale, next, n);
    SlotsApart(b.want, n, |next|);
    var c := b.(want := b.want + n, delivered := b.delivered + next[..n]);
    AwaitedTakesStale(c, stale, next[n]);
    RunOneMore(b, next[..n], next[n]);
    assert next[..n] + [next[n]] == next;
    assert c.delivered + [next[n]] + [stale] == b.delivered + next + [stale];
  }

  /** A message that arrives twice, at once, is cached the second time. */
  lemma RepeatIsCached(first: Msg, again: Msg)
    requires first.id == again.id && first.id + 1 < UINT16
    ensures Run(Start(first.id), [first, again]).1 == Placed(Buffer(first.id + 1, Start(0).slots, 0, [first], []), again)
  {
    var b := Start(first.id);
    var i := SlotOf(first.id);
    NextSlot(first.id);
    DrainStep(Placed(b, first), i);
    var c := Buffer(first.id + 1, b.slots, 0, [first], []);
    assert Placed(b, first).slots[i := Empty] == b.slots;
    assert Popped(Placed(b, first), i) == c;
    assert Inserted(b, first).1 == c;
    assert [first, again][..1] == [first];
    assert Run(b, [first]).1 == c by { assert [first][..0] == []; }
  }

  lemma RepeatLeads(b: Buffer, id: Id, again: Msg, next: seq<Msg>)
    requires again.id == id && id + CACHE < UINT16
    requires b.want == id + 1 && b.slots == Start(0).slots[SlotOf(id) := Held(again)]
    requires |next| == CACHE - 1 && forall k :: 0 <= k < |next| ==> next[k].id == id + 1 + k
    ensures OnlyHolds(b, again) && LeadsTo(b, again, next)
  {
    assert SlotOf(id + CACHE) == SlotOf(id);
  }

  /** The real input: a repeat, and then the next 255 messages in order. The repeat is delivered
      again in the place of the 256th. */
  lemma {:induction false} RepeatIsDeliveredTwice(first: Msg, again: Msg, next: seq<Msg>)
    requires first.id == again.id && first.id + CACHE < UINT16
    requires |next| == CACHE - 1 && forall k :: 0 <= k < |next| ==> next[k].id == first.id + 1 + k
    ensures Run(Start(first.id), [first, again] + next).1.delivered == [first] + next + [again]
  {
    var b := Placed(Buffer(first.id + 1, Start(0).slots, 0, [first], []), again);
    RepeatIsCached(first, again);
    RunAppend(Start(first.id), [first, again], next);
    RepeatLeads(b, first.id, again, next);
    PassedIdIsDelivered(b, again, next);
  }
}
