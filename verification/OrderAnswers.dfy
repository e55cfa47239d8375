/** What the reorder buffer answers, arrival by arrival, over every arrival sequence. The socket
    breaks off on 2, acknowledges at once on 1, and with its next acks on 0. */
module OrderAnswers {
  import opened Bytes
  import opened Common
  import opened OrderList

  /** The buffer when the last of `msgs` arrives. */
  function Met(start: Id, msgs: seq<Msg>): (b: Buffer)
    requires msgs != []
    ensures |b.slots| == CACHE
  {
    Run(Start(start), msgs[..|msgs| - 1]).1
  }

  /** The last arrival is too far from the id awaited when it comes. */
  predicate LastIsFar(start: Id, msgs: seq<Msg>)
    requires msgs != []
  {
    TooFar(Met(start, msgs).want, msgs[|msgs| - 1].id)
  }

  /** How many arrivals were too far. */
  function FarSoFar(start: Id, msgs: seq<Msg>): nat {
    if msgs == [] then 0 else FarSoFar(start, msgs[..|msgs| - 1]) + if LastIsFar(start, msgs) then 1 else 0
  }

  function LastAnswer(start: Id, msgs: seq<Msg>): nat
    requires msgs != []
  {
    Run(Start(start), msgs).0[|msgs| - 1]
  }

  lemma {:induction false} DrainCountsNoDiscards(b: Buffer, i: nat)
    requires |b.slots| == CACHE && i < CACHE
    ensures Drain(b, i).discards == b.discards
    decreases Occupied(b.slots)
  {
    if b.slots[i].Held? {
      DrainStep(b, i);
      DrainCountsNoDiscards(Popped(b, i), (i + 1) % CACHE);
    }
  }

  lemma InsertCountsFar(b: Buffer, m: Msg)
    requires |b.slots| == CACHE
    ensures Inserted(b, m).1.discards == if TooFar(b.want, m.id) then (b.discards + 1) % UINT16 else b.discards
  {
    if m.id == b.want { DrainCountsNoDiscards(b.(slots := b.slots[SlotOf(m.id) := Held(m)]), SlotOf(m.id)); }
  }

  lemma {:induction false} LastStep(start: Id, msgs: seq<Msg>)
    requires msgs != []
    ensures (LastAnswer(start, msgs), Run(Start(start), msgs).1) == Inserted(Met(start, msgs), msgs[|msgs| - 1])
  {
  }

  lemma InsertAnswers(b: Buffer, m: Msg)
    requires |b.slots| == CACHE
    ensures Inserted(b, m).0 == if TooFar(b.want, m.id) then (if (b.discards + 1) % UINT16 >= DISCARD_LIMIT then 2 else 0)
            else if m.id != b.want && b.slots[SlotOf(m.id)].Held? then 1 else 0
  {
  }

  lemma OneMoreModulo(n: nat)
    ensures (n % UINT16 + 1) % UINT16 == (n + 1) % UINT16
  {
  }

  /** The discard count is the number of arrivals too far, modulo 65536. It never starts over. */
  lemma {:induction false} DiscardsCountFar(start: Id, msgs: seq<Msg>)
    ensures Run(Start(start), msgs).1.discards == FarSoFar(start, msgs) % UINT16
  {
    if msgs != [] {
      var before := msgs[..|msgs| - 1];
      var b, m := Met(start, msgs), msgs[|msgs| - 1];
      DiscardsCountFar(start, before);
      InsertCountsFar(b, m);
      OneMoreModulo(FarSoFar(start, before));
      LastStep(start, msgs);
    }
  }

  lemma {:induction false} FarDiscards(start: Id, msgs: seq<Msg>)
    requires msgs != [] && LastIsFar(start, msgs)
    ensures (Met(start, msgs).discards + 1) % UINT16 == FarSoFar(start, msgs) % UINT16
  {
    var before := msgs[..|msgs| - 1];
    DiscardsCountFar(start, before);
    OneMoreModulo(FarSoFar(start, before));
  }

  /** A message waits in the slot of `m`. */
  ghost predicate SlotIsTaken(b: Buffer, m: Msg)
    requires |b.slots| == CACHE
  {
    exists c :: Waiting(b.slots, c) > 0 && SlotOf(c.id) == SlotOf(m.id)
  }

  lemma {:induction false} HeldIsWaiting(slots: seq<Slot>, j: nat)
    requires j < |slots| && slots[j].Held?
    ensures Waiting(slots, slots[j].msg) > 0
  {
    var n := |slots| - 1;
    if j < n { HeldIsWaiting(slots[..n], j); }
  }

  lemma {:induction false} TakenIffHeld(b: Buffer, start: Id, m: Msg)
    requires Counts(b, start)
    ensures SlotIsTaken(b, m) <==> b.slots[SlotOf(m.id)].Held?
  {
    if b.slots[SlotOf(m.id)].Held? { HeldIsWaiting(b.slots, SlotOf(m.id)); }
    forall c | Waiting(b.slots, c) > 0 && SlotOf(c.id) == SlotOf(m.id) ensures b.slots[SlotOf(m.id)].Held? {
      var j := WaitingIsHeld(b.slots, c);
      assert SlotOf(b.slots[j].msg.id) == j;
    }
  }

  /** Every answer over every arrival sequence.  It is 2 exactly when the arrival is too far from the
      awaited id and the arrivals too far so far, itself among them and modulo 65536, are 3 or more;
      1 exactly when it is near, not the one awaited, and another waits in its slot; and 0 otherwise. */
  lemma {:induction false} EveryAnswer(start: Id, msgs: seq<Msg>)
    requires msgs != []
    ensures var m, b := msgs[|msgs| - 1], Met(start, msgs);
            && (LastAnswer(start, msgs) == 2 <==> LastIsFar(start, msgs) && FarSoFar(start, msgs) % UINT16 >= DISCARD_LIMIT)
            && (LastAnswer(start, msgs) == 1 <==> !LastIsFar(start, msgs) && m.id != b.want && SlotIsTaken(b, m))
            && LastAnswer(start, msgs) <= 2
  {
    var m := msgs[|msgs| - 1];
    if LastIsFar(start, msgs) { FarDiscards(start, msgs); }
    RunSettles(start, msgs[..|msgs| - 1]);
    TakenIffHeld(Met(start, msgs), start, m);
    InsertAnswers(Met(start, msgs), m);
    LastStep(start, msgs);
  }

  lemma {:induction false} LastIsRefused(b: Buffer, m: Msg)
    requires |b.slots| == CACHE
    ensures Inserted(b, m).1.refused == b.refused + if TooFar(b.want, m.id) || Inserted(b, m).0 == 1 then [m] else []
  {
    if m.id == b.want { DrainRefusesNone(b.(slots := b.slots[SlotOf(m.id) := Held(m)]), SlotOf(m.id)); }
    assert b.refused + [] == b.refused;
  }

  /** A message that is answered 0, and so acknowledged, is thrown away if and only if it was too far
      and is one of the first two such modulo 65536. */
  lemma {:induction false} AcknowledgedButLostIff(start: Id, msgs: seq<Msg>)
    requires msgs != []
    ensures var r := Run(Start(start), msgs).1;
            LastAnswer(start, msgs) == 0 && r.refused == Met(start, msgs).refused + [msgs[|msgs| - 1]]
            <==> LastIsFar(start, msgs) && FarSoFar(start, msgs) % UINT16 < DISCARD_LIMIT
  {
    var m, b := msgs[|msgs| - 1], Met(start, msgs);
    EveryAnswer(start, msgs);
    LastStep(start, msgs);
    LastIsRefused(b, m);
    assert |b.refused + [m]| == |b.refused| + 1;
  }
}
