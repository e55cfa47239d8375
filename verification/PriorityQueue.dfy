/** The weighted priority queue of common/PriorityQueue.cpp. */
module PriorityQueue {
  import opened Common

  const LEVELS := 4
  const HIGHEST := 0
  const HIGH := 1
  const NORMAL := 2
  const LOW := 3
  const SURPLUS := 2  // __pri_surplus

  /** The bits of a message's local flag word that are tested here: 0x08 (no id yet), and
      0x10, 0x20, 0x40 and 0x80.  The tests take these four for the priorities from low to
      highest; in the local word they mark a message to be sent, a received one, the message
      that waits out 2MSL, and one in the pacing timer. */
  datatype Flags = Flags(withoutId: bool, low: bool, normal: bool, high: bool, highest: bool)

  /** A message on its way out; `tag` tells message objects apart. */
  datatype Msg = Msg(tag: nat, flag: Flags)

  /** The queue a flag word selects: the bits are tested from low priority up. */
  function LevelOf(flag: Flags): Option<nat> {
    if flag.low then Some(LOW)
    else if flag.normal then Some(NORMAL)
    else if flag.high then Some(HIGH)
    else if flag.highest then Some(HIGHEST)
    else None
  }

  predicate HasPriority(flag: Flags) { flag.low || flag.normal || flag.high || flag.highest }

  /** The four queues and the credits left to the upper three. */
  datatype Queues = Queues(q: seq<seq<Msg>>, normal: int, high: int, highest: int)

  ghost predicate Valid(p: Queues) {
    |p.q| == LEVELS && 0 <= p.normal <= SURPLUS && 0 <= p.high <= SURPLUS && 0 <= p.highest <= SURPLUS
  }

  ghost predicate AllEmpty(p: Queues)
    requires Valid(p)
  {
    forall l :: 0 <= l < LEVELS ==> p.q[l] == []
  }

  // ---------------------------------------------------------------- what a call does

  ghost function Pushed(p: Queues, msg: Msg): Queues
    requires Valid(p)
  {
    match LevelOf(msg.flag)
    case None => p
    case Some(l) => p.(q := p.q[l := p.q[l] + [msg]])
  }

  /** The first upper level that has both credit and a message. */
  ghost function Credited(p: Queues): Option<nat>
    requires Valid(p)
  {
    if p.highest > 0 && p.q[HIGHEST] != [] then Some(HIGHEST)
    else if p.high > 0 && p.q[HIGH] != [] then Some(HIGH)
    else if p.normal > 0 && p.q[NORMAL] != [] then Some(NORMAL)
    else None
  }

  ghost function Refilled(p: Queues): Queues { p.(normal := SURPLUS, high := SURPLUS, highest := SURPLUS) }

  /** The level the next Pop serves: a credited level; else the low level; else, with fresh
      credits, any level that has a message. */
  ghost function Served(p: Queues): Option<nat>
    requires Valid(p)
  {
    if Credited(p).Some? then Credited(p)
    else if p.q[LOW] != [] then Some(LOW)
    else Credited(Refilled(p))
  }

  /** Serving a level costs it one credit and gives the levels above it theirs back. */
  ghost function Charged(p: Queues, l: nat): Queues {
    if l == HIGHEST then p.(highest := p.highest - 1)
    else if l == HIGH then p.(high := p.high - 1, highest := SURPLUS)
    else if l == NORMAL then p.(normal := p.normal - 1, high := SURPLUS, highest := SURPLUS)
    else p
  }

  ghost function Popped(p: Queues): (Option<Msg>, Queues)
    requires Valid(p)
  {
    var base := if Credited(p).Some? then p else Refilled(p);
    match Served(p)
    case None => (None, base)
    case Some(l) =>
      if p.q[l] == [] then (None, base) else
      (Some(p.q[l][0]), Charged(base, l).(q := p.q[l := p.q[l][1..]]))
  }

  // ---------------------------------------------------------------- the queue as written

  class PriorityQueue {
    var queueArr: seq<seq<Msg>>
    var normalCount: int
    var highCount: int
    var highestCount: int

    ghost function View(): Queues
      reads this
    {
      Queues(queueArr, normalCount, highCount, highestCount)
    }

    ghost predicate Ready()
      reads this
    {
      Valid(View())
    }

    constructor ()
      ensures Ready() && AllEmpty(View()) && View() == Refilled(View())
    {
      queueArr := [[], [], [], []];
      normalCount, highCount, highestCount := SURPLUS, SURPLUS, SURPLUS;
    }

    method PushBack(msg: Msg)
      requires Ready()
      modifies this`queueArr
      ensures Ready() && View() == Pushed(old(View()), msg)
    {
      var flag := msg.flag;
      if flag.low {
        queueArr := queueArr[LOW := queueArr[LOW] + [msg]];
      } else if flag.normal {
        queueArr := queueArr[NORMAL := queueArr[NORMAL] + [msg]];
      } else if flag.high {
        queueArr := queueArr[HIGH := queueArr[HIGH] + [msg]];
      } else if flag.highest {
        queueArr := queueArr[HIGHEST := queueArr[HIGHEST] + [msg]];
      }
    }

    /** Take the front of queue `l`. */
    method Front(l: nat) returns (msg: Msg)
      requires |queueArr| == LEVELS && l < LEVELS && queueArr[l] != []
      modifies this`queueArr
      ensures msg == old(queueArr[l][0]) && queueArr == old(queueArr[l := queueArr[l][1..]])
    {
      msg := queueArr[l][0];
      queueArr := queueArr[l := queueArr[l][1..]];
    }

    /** Serve the upper levels that have credit, from the highest down. */
    method PopCredited() returns (msg: Option<Msg>)
      requires Ready()
      modifies this
      ensures msg.None? <==> Credited(old(View())).None?
      ensures msg.None? ==> View() == old(View())
      ensures msg.Some? ==> var p, l := old(View()), Credited(old(View())).value;
        msg == Some(p.q[l][0]) && View() == Charged(p, l).(q := p.q[l := p.q[l][1..]])
    {
      if highestCount > 0 {
        if queueArr[HIGHEST] != [] {
          var m := Front(HIGHEST);
          highestCount := highestCount - 1;
          return Some(m);
        }
      }
      if highCount > 0 {
        if queueArr[HIGH] != [] {
          var m := Front(HIGH);
          highestCount := SURPLUS;
          highCount := highCount - 1;
          return Some(m);
        }
      }
      if normalCount > 0 {
        if queueArr[NORMAL] != [] {
          var m := Front(NORMAL);
          highCount := SURPLUS;
          highestCount := SURPLUS;
          normalCount := normalCount - 1;
          return Some(m);
        }
      }
      return None;
    }

    method Pop() returns (msg: Option<Msg>)
      requires Ready()
      modifies this
      ensures Ready() && (msg, View()) == Popped(old(View()))
    {
      msg := PopCredited();
      if msg.Some? {
        return;
      }
      normalCount := SURPLUS;
      highCount := SURPLUS;
      highestCount := SURPLUS;
      if queueArr[LOW] != [] {
        var m := Front(LOW);
        return Some(m);
      }
      msg := PopCredited();
    }

    method Size() returns (n: nat)
      requires Ready()
      ensures n == |queueArr[0]| + |queueArr[1]| + |queueArr[2]| + |queueArr[3]|
      ensures n == 0 <==> AllEmpty(View())
    {
      n := 0;
      for i := 0 to LEVELS
        invariant i == 0 ==> n == 0
        invariant i == 1 ==> n == |queueArr[0]|
        invariant i == 2 ==> n == |queueArr[0]| + |queueArr[1]|
        invariant i == 3 ==> n == |queueArr[0]| + |queueArr[1]| + |queueArr[2]|
        invariant i == 4 ==> n == |queueArr[0]| + |queueArr[1]| + |queueArr[2]| + |queueArr[3]|
      {
        n := n + |queueArr[i]|;
      }
    }
  }

  // ---------------------------------------------------------------- one call

  /** A message enters some queue exactly when its flag word has a priority bit. */
  lemma PushKeepsIffPriority(p: Queues, msg: Msg)
    requires Valid(p)
    ensures (exists l :: 0 <= l < LEVELS && Pushed(p, msg).q == p.q[l := p.q[l] + [msg]]) <==> HasPriority(msg.flag)
    ensures !HasPriority(msg.flag) ==> Pushed(p, msg) == p
  {
    match LevelOf(msg.flag)
    case None =>
      forall l | 0 <= l < LEVELS ensures p.q != p.q[l := p.q[l] + [msg]] {
        assert |p.q[l := p.q[l] + [msg]][l]| == |p.q[l]| + 1;
      }
    case Some(l) => assert 0 <= l < LEVELS && Pushed(p, msg).q == p.q[l := p.q[l] + [msg]];
  }

  /** Pop returns nothing exactly when nothing waits; otherwise it takes the front of the level
      it serves, in order of arrival, and leaves the other levels as they are. */
  lemma {:induction false} PopTakesAFront(p: Queues)
    requires Valid(p)
    ensures var (msg, r) := Popped(p);
            && Valid(r)
            && (msg.None? <==> AllEmpty(p)) && (Served(p).None? <==> AllEmpty(p))
            && (msg.None? ==> r.q == p.q)
            && (msg.Some? ==> var l := Served(p).value;
                  l < LEVELS && p.q[l] == [msg.value] + r.q[l] && forall k :: 0 <= k < LEVELS && k != l ==> r.q[k] == p.q[k])
  {
  }

  // ---------------------------------------------------------------- order of arrival

  datatype Call = PushCall(msg: Msg) | PopCall

  ghost function Called(p: Queues, c: Call): (r: Queues)
    requires Valid(p)
    ensures Valid(r)
  {
    PopTakesAFront(p);
    match c
    case PushCall(msg) => Pushed(p, msg)
    case PopCall => Popped(p).1
  }

  ghost function AllCalled(p: Queues, calls: seq<Call>): (r: Queues)
    requires Valid(p)
    ensures Valid(r)
    decreases |calls|
  {
    if calls == [] then p else AllCalled(Called(p, calls[0]), calls[1..])
  }

  /** What was pushed at level `l`, in order. */
  function PushedAt(calls: seq<Call>, l: nat): seq<Msg> {
    if calls == [] then []
    else (if calls[0].PushCall? && LevelOf(calls[0].msg.flag) == Some(l) then [calls[0].msg] else []) + PushedAt(calls[1..], l)
  }

  /** What was popped, in order, when level `l` was served. */
  ghost function PoppedAt(p: Queues, calls: seq<Call>, l: nat): seq<Msg>
    requires Valid(p)
    decreases |calls|
  {
    if calls == [] then [] else
    var rest := PoppedAt(Called(p, calls[0]), calls[1..], l);
    if calls[0].PopCall? && Served(p) == Some(l) && Popped(p).0.Some? then [Popped(p).0.value] + rest else rest
  }

  lemma {:induction false} PushIsFifo(p: Queues, msg: Msg, l: nat)
    requires Valid(p) && l < LEVELS
    ensures Pushed(p, msg).q[l] == p.q[l] + PushedAt([PushCall(msg)], l)
    ensures PoppedAt(p, [PushCall(msg)], l) == []
  {
    assert [PushCall(msg)][1..] == [];
  }

  lemma {:induction false} PopIsFifo(p: Queues, l: nat)
    requires Valid(p) && l < LEVELS
    ensures p.q[l] == PoppedAt(p, [PopCall], l) + Popped(p).1.q[l]
    ensures PushedAt([PopCall], l) == []
  {
    PopTakesAFront(p);
    assert [PopCall][1..] == [];
    assert PoppedAt(Called(p, PopCall), [], l) == [];
  }

  lemma {:induction false} OneCallIsFifo(p: Queues, c: Call, l: nat)
    requires Valid(p) && l < LEVELS
    ensures p.q[l] + PushedAt([c], l) == PoppedAt(p, [c], l) + Called(p, c).q[l]
  {
    match c
    case PushCall(msg) => PushIsFifo(p, msg, l);
    case PopCall => PopIsFifo(p, l);
  }

  lemma {:induction false} FirstCall(p: Queues, calls: seq<Call>, l: nat)
    requires Valid(p) && calls != []
    ensures PushedAt(calls, l) == PushedAt([calls[0]], l) + PushedAt(calls[1..], l)
    ensures PoppedAt(p, calls, l) == PoppedAt(p, [calls[0]], l) + PoppedAt(Called(p, calls[0]), calls[1..], l)
  {
    assert [calls[0]][1..] == [];
  }

  /** First in, first out within every level, over every run of pushes and pops: what a level held
      and what was pushed at it is what was popped from it, in order, and what it still holds. */
  lemma {:induction false} EveryLevelIsFifo(p: Queues, calls: seq<Call>, l: nat)
    requires Valid(p) && l < LEVELS
    ensures p.q[l] + PushedAt(calls, l) == PoppedAt(p, calls, l) + AllCalled(p, calls).q[l]
    decreases |calls|
  {
    if calls != [] {
      var r := Called(p, calls[0]);
      OneCallIsFifo(p, calls[0], l);
      FirstCall(p, calls, l);
      EveryLevelIsFifo(r, calls[1..], l);
      Chain(p.q[l], PushedAt([calls[0]], l), PushedAt(calls[1..], l), PoppedAt(p, [calls[0]], l), r.q[l],
            PoppedAt(r, calls[1..], l), AllCalled(r, calls[1..]).q[l]);
    }
  }

  lemma Chain(a: seq<Msg>, b: seq<Msg>, c: seq<Msg>, d: seq<Msg>, e: seq<Msg>, f: seq<Msg>, g: seq<Msg>)
    requires a + b == d + e && e + c == f + g
    ensures a + (b + c) == (d + f) + g
  {
    assert a + (b + c) == (a + b) + c;
    assert (d + e) + c == d + (e + c);
    assert d + (f + g) == (d + f) + g;
  }

  // ---------------------------------------------------------------- messages of the user

  /** The local word of a new message once SendTo has marked it to be sent. */
  const TO_BE_SENT := Flags(false, true, false, false, false)

  /** The priority a user asks for is honoured if and only if he asks for the lowest: it goes into
      the header, and the queue is chosen by the local word. */
  lemma PriorityHonouredIff(p: Queues, msg: Msg, asked: nat)
    requires Valid(p) && asked < LEVELS && msg.flag == TO_BE_SENT
    ensures Pushed(p, msg).q[asked] == p.q[asked] + [msg] <==> asked == LOW
  {
    assert |p.q[asked] + [msg]| == |p.q[asked]| + 1;
  }

  /** Only the user's messages are pushed. */
  ghost predicate FromUser(calls: seq<Call>) {
    forall k :: 0 <= k < |calls| && calls[k].PushCall? ==> calls[k].msg.flag == TO_BE_SENT
  }

  ghost predicate OnlyLow(p: Queues)
    requires Valid(p)
  {
    p.q[HIGHEST] == [] && p.q[HIGH] == [] && p.q[NORMAL] == []
  }

  function AllPushed(calls: seq<Call>): seq<Msg> {
    if calls == [] then [] else (if calls[0].PushCall? then [calls[0].msg] else []) + AllPushed(calls[1..])
  }

  /** What was popped, at whatever level, in order. */
  ghost function AllPopped(p: Queues, calls: seq<Call>): seq<Msg>
    requires Valid(p)
    decreases |calls|
  {
    if calls == [] then [] else
    var rest := AllPopped(Called(p, calls[0]), calls[1..]);
    if calls[0].PopCall? && Popped(p).0.Some? then [Popped(p).0.value] + rest else rest
  }

  lemma {:induction false} OnlyLowIsServed(p: Queues, calls: seq<Call>)
    requires Valid(p) && OnlyLow(p) && FromUser(calls)
    ensures OnlyLow(AllCalled(p, calls))
    ensures PushedAt(calls, LOW) == AllPushed(calls) && PoppedAt(p, calls, LOW) == AllPopped(p, calls)
    decreases |calls|
  {
    if calls != [] {
      PopTakesAFront(p);
      OnlyLowIsServed(Called(p, calls[0]), calls[1..]);
    }
  }

  /** With the user's messages alone the four weighted levels are one plain queue: over every run
      of pushes and pops, what waited and what was pushed comes out in that order. */
  lemma {:induction false} UserMessagesAreOneQueue(p: Queues, calls: seq<Call>)
    requires Valid(p) && OnlyLow(p) && FromUser(calls)
    ensures p.q[LOW] + AllPushed(calls) == AllPopped(p, calls) + AllCalled(p, calls).q[LOW]
    ensures OnlyLow(AllCalled(p, calls))
  {
    OnlyLowIsServed(p, calls);
    EveryLevelIsFifo(p, calls, LOW);
  }

  // ---------------------------------------------------------------- fairness

  /** All credit left, with the level above weighing a third of the one below. */
  ghost function Credit(p: Queues): int { 9 * p.normal + 3 * p.high + p.highest }

  /** Every pop on credit spends some. */
  lemma CreditedPopSpends(p: Queues)
    requires Valid(p) && Credited(p).Some?
    ensures 0 <= Credit(Popped(p).1) < Credit(p) <= 26
  {
  }

  /** One round: messages are pushed, then one is popped. */
  ghost function PushAll(p: Queues, msgs: seq<Msg>): (r: Queues)
    requires Valid(p)
    ensures Valid(r) && (r.normal, r.high, r.highest) == (p.normal, p.high, p.highest)
    ensures forall l :: 0 <= l < LEVELS ==> p.q[l] <= r.q[l]
    decreases |msgs|
  {
    if msgs == [] then p else PushAll(Pushed(p, msgs[0]), msgs[1..])
  }

  /** One pop and then any pushes lead from `p` to `r`. */
  ghost predicate Between(p: Queues, r: Queues)
    requires Valid(p)
  {
    PopTakesAFront(p);
    exists msgs :: r == PushAll(Popped(p).1, msgs)
  }

  /** The queues as successive Pops find them, with any pushes in between. */
  ghost predicate IsService(t: seq<Queues>) {
    (forall k :: 0 <= k < |t| ==> Valid(t[k])) && (forall k :: 0 <= k < |t| - 1 ==> Between(t[k], t[k + 1]))
  }

  /** How many pops may pass level `l` over while it has messages. */
  ghost function Patience(p: Queues, l: nat): int {
    if l == HIGHEST then (if p.highest > 0 then 0 else 1)
    else if l == HIGH then (if p.high > 0 then p.highest else p.highest + 3)
    else if l == NORMAL then (if p.normal > 0 then 3 * p.high + p.highest else 3 * p.high + p.highest + 9)
    else Credit(p)
  }

  const BOUNDS: seq<nat> := [2, 6, 18, 27]

  lemma PatienceBound(p: Queues, l: nat)
    requires Valid(p) && l < LEVELS
    ensures 0 <= Patience(p, l) < BOUNDS[l]
  {
  }

  lemma PassingOverCosts(p: Queues, l: nat)
    requires Valid(p) && l < LEVELS && p.q[l] != [] && Served(p) != Some(l)
    ensures Patience(Popped(p).1, l) < Patience(p, l)
  {
  }

  /** With no patience left the level is served. */
  lemma LastPatience(p: Queues, l: nat)
    requires Valid(p) && l < LEVELS && p.q[l] != [] && Patience(p, l) <= 0
    ensures Served(p) == Some(l)
  {
  }

  lemma RoundCosts(p: Queues, r: Queues, l: nat)
    requires Valid(p) && l < LEVELS && Between(p, r) && p.q[l] != [] && Served(p) != Some(l)
    ensures Patience(r, l) < Patience(p, l)
  {
    PassingOverCosts(p, l);
    PopTakesAFront(p);
  }

  lemma {:induction false} RunsDown(c: seq<int>, k: nat)
    requires k < |c| && forall i :: 0 <= i < k ==> c[i + 1] < c[i]
    ensures c[k] <= c[0] - k
  {
    if k > 0 { RunsDown(c, k - 1); }
  }

  lemma PatienceRunsDown(t: seq<Queues>, l: nat, k: nat)
    requires IsService(t) && l < LEVELS && k < |t|
    requires forall i :: 0 <= i < k ==> t[i].q[l] != [] && Served(t[i]) != Some(l)
    ensures Patience(t[k], l) <= Patience(t[0], l) - k
  {
    var c := seq(k + 1, i requires 0 <= i <= k => Patience(t[i], l));
    forall i | 0 <= i < k ensures c[i + 1] < c[i] {
      RoundCosts(t[i], t[i + 1], l);
    }
    RunsDown(c, k);
  }

  /** No starvation: whatever else is pushed, a level that stays non-empty is served within
      2, 6, 18 or 27 pops, from the highest level to the lowest. */
  lemma {:induction false} NoLevelStarves(t: seq<Queues>, l: nat)
    requires IsService(t) && l < LEVELS && |t| == BOUNDS[l]
    requires forall k :: 0 <= k < |t| ==> t[k].q[l] != []
    ensures exists k :: 0 <= k < |t| && Served(t[k]) == Some(l)
  {
    var n := |t| - 1;
    if forall k :: 0 <= k < |t| ==> Served(t[k]) != Some(l) {
      PatienceRunsDown(t, l, n);
      PatienceBound(t[0], l);
      LastPatience(t[n], l);
    }
  }

  // ---------------------------------------------------------------- all levels busy

  /** The level served at a given credit when all are busy: its factors of three. */
  function LevelAt(credit: int): nat {
    if credit % 3 != 0 then HIGHEST else if credit % 9 != 0 then HIGH else if credit % 27 != 0 then NORMAL else LOW
  }

  ghost predicate Busy(p: Queues)
    requires Valid(p)
  {
    forall l :: 0 <= l < LEVELS ==> p.q[l] != []
  }

  /** With all levels busy the credits count down as one number in base three. */
  lemma BusyPop(p: Queues)
    requires Valid(p) && Busy(p)
    ensures Served(p) == Some(LevelAt(Credit(p)))
    ensures Credit(Popped(p).1) == (Credit(p) - 1) % 27
  {
  }

  lemma BusyRound(p: Queues, r: Queues)
    requires Valid(p) && Between(p, r) && Busy(p)
    ensures Credit(r) == (Credit(p) - 1) % 27
  {
    BusyPop(p);
    PopTakesAFront(p);
  }

  lemma {:induction false} CountsDown(c: seq<int>, k: nat)
    requires k < |c| && 0 <= c[0] < 27 && forall i :: 0 <= i < k ==> c[i + 1] == (c[i] - 1) % 27
    ensures c[k] == (c[0] - k) % 27
  {
    if k > 0 {
      CountsDown(c, k - 1);
      Step27(c[0] - (k - 1));
    }
  }

  lemma Step27(x: int)
    ensures (x % 27 - 1) % 27 == (x - 1) % 27
  {
  }

  lemma BusyCredit(t: seq<Queues>, k: nat)
    requires IsService(t) && k < |t| && forall i :: 0 <= i < k ==> Busy(t[i])
    ensures Credit(t[k]) == (Credit(t[0]) - k) % 27
  {
    var c := seq(k + 1, i requires 0 <= i <= k => Credit(t[i]));
    CreditRange(t[0]);
    forall i | 0 <= i < k ensures c[i + 1] == (c[i] - 1) % 27 {
      BusyRound(t[i], t[i + 1]);
    }
    CountsDown(c, k);
  }

  lemma CreditRange(p: Queues)
    requires Valid(p)
    ensures 0 <= Credit(p) < 27
  {
  }

  /** While all levels stay busy the level of the k-th pop follows from the starting credit. */
  lemma BusySchedule(t: seq<Queues>, k: nat)
    requires IsService(t) && k < |t| && forall i :: 0 <= i <= k ==> Busy(t[i])
    ensures Served(t[k]) == Some(LevelAt((Credit(t[0]) - k) % 27))
  {
    BusyCredit(t, k);
    BusyPop(t[k]);
  }

  /** How often level `l` comes up in `n` steps down from credit `c`. */
  function Services(c: int, l: nat, n: nat): nat {
    if n == 0 then 0 else Services(c, l, n - 1) + if LevelAt((c - (n - 1)) % 27) == l then 1 else 0
  }

  lemma {:induction false} ServicesFromFirst(c: int, l: nat, n: nat)
    ensures Services(c, l, n + 1) == Services(c - 1, l, n) + if LevelAt(c % 27) == l then 1 else 0
  {
    if n > 0 { ServicesFromFirst(c, l, n - 1); }
  }

  lemma {:induction false} PeriodIsAnyPeriod(c: nat, l: nat)
    requires c <= 26
    ensures Services(c, l, 27) == Services(26, l, 27)
    decreases 26 - c
  {
    if c < 26 {
      PeriodIsAnyPeriod(c + 1, l);
      ServicesFromFirst(c + 1, l, 26);
      assert (c + 1) % 27 == (c - 26) % 27;
    }
  }

  const SHARES: seq<nat> := [18, 6, 2, 1]

  /** How many of the numbers from 1 to `n` have no, one, two or three factors of three. */
  function Share(l: nat, n: nat): int {
    if l == HIGHEST then n - n / 3 else if l == HIGH then n / 3 - n / 9 else if l == NORMAL then n / 9 - n / 27 else n / 27
  }

  lemma ThirdsStep(n: nat)
    requires n > 0
    ensures n / 3 == (n - 1) / 3 + if n % 3 == 0 then 1 else 0
  {
  }

  lemma NinthsStep(n: nat)
    requires n > 0
    ensures n / 9 == (n - 1) / 9 + if n % 9 == 0 then 1 else 0
  {
  }

  lemma TwentySeventhsStep(n: nat)
    requires n > 0
    ensures n / 27 == (n - 1) / 27 + if n % 27 == 0 then 1 else 0
  {
  }

  /** Counting down from 26 the factors of three come in the same order as counting up from 1. */
  lemma LevelMirrored(n: nat)
    requires 1 <= n <= 27
    ensures LevelAt((26 - (n - 1)) % 27) == if n % 3 != 0 then HIGHEST else if n % 9 != 0 then HIGH else if n % 27 != 0 then NORMAL else LOW
  {
  }

  lemma ShareStep(l: nat, n: nat)
    requires 1 <= n <= 27 && l < LEVELS
    ensures Share(l, n) == Share(l, n - 1) + if LevelAt((26 - (n - 1)) % 27) == l then 1 else 0
  {
    ThirdsStep(n);
    NinthsStep(n);
    TwentySeventhsStep(n);
    LevelMirrored(n);
  }

  lemma {:induction false} ServicesFromFull(l: nat, n: nat)
    requires n <= 27 && l < LEVELS
    ensures Services(26, l, n) == Share(l, n)
  {
    if n > 0 {
      ServicesFromFull(l, n - 1);
      ShareStep(l, n);
    }
  }

  /** The levels successive Pops serve. */
  ghost function LevelsServed(t: seq<Queues>): seq<Option<nat>>
    requires IsService(t)
  {
    seq(|t|, i requires 0 <= i < |t| => Served(t[i]))
  }

  function Count(s: seq<Option<nat>>, l: nat): nat {
    if s == [] then 0 else Count(s[..|s| - 1], l) + if s[|s| - 1] == Some(l) then 1 else 0
  }

  lemma {:induction false} ScheduleCounts(s: seq<Option<nat>>, c: int, l: nat)
    requires forall i :: 0 <= i < |s| ==> s[i] == Some(LevelAt((c - i) % 27))
    ensures Count(s, l) == Services(c, l, |s|)
  {
    if s != [] { ScheduleCounts(s[..|s| - 1], c, l); }
  }

  /** Every 27 pops in which all levels are busy serve them 18, 6, 2 and 1 times. */
  lemma {:induction false} BusyPeriodShares(t: seq<Queues>, l: nat)
    requires IsService(t) && |t| == 27 && l < LEVELS && forall i :: 0 <= i < 27 ==> Busy(t[i])
    ensures Count(LevelsServed(t), l) == SHARES[l]
  {
    var s, c := LevelsServed(t), Credit(t[0]);
    forall i | 0 <= i < 27 ensures s[i] == Some(LevelAt((c - i) % 27)) {
      BusySchedule(t, i);
    }
    ScheduleCounts(s, c, l);
    CreditRange(t[0]);
    PeriodIsAnyPeriod(c, l);
    ServicesFromFull(l, 27);
  }

  /** Credits from which a busy queue passes level `l` over as often as it ever may. */
  const WORST: seq<nat> := [0, 2, 8, 26]

  /** The bounds are reached: from these credits the level is first served by the last pop allowed. */
  lemma BoundsAreTight(t: seq<Queues>, l: nat, k: nat)
    requires IsService(t) && l < LEVELS && |t| == BOUNDS[l] && k < BOUNDS[l] && Credit(t[0]) == WORST[l]
    requires forall i :: 0 <= i < |t| ==> Busy(t[i])
    ensures Served(t[k]) == Some(l) <==> k == BOUNDS[l] - 1
  {
    BusySchedule(t, k);
    WorstIsLast(l, k);
  }

  lemma WorstIsLast(l: nat, k: nat)
    requires l < LEVELS && k < BOUNDS[l]
    ensures LevelAt((WORST[l] - k) % 27) == l <==> k == BOUNDS[l] - 1
  {
  }

  // ---------------------------------------------------------------- the upper levels alone

  function CreditOf(p: Queues, l: nat): int { if l == HIGHEST then p.highest else if l == HIGH then p.high else p.normal }

  /** Every pop of an upper level costs it one credit, from full credit when no level had any that it
      could use; the levels above it are back at full credit, and those below keep theirs. */
  lemma {:induction false} PopCharges(p: Queues, l: nat, k: nat)
    requires Valid(p) && Served(p) == Some(l) && l < LOW && k < LOW
    ensures var before := if Credited(p).Some? then CreditOf(p, k) else SURPLUS;
            CreditOf(Popped(p).1, k) == if k < l then SURPLUS else if k == l then before - 1 else before
  {
    PopTakesAFront(p);
  }

  /** Nothing waits at the lowest level, and the others are busy. */
  ghost predicate UpperBusy(p: Queues)
    requires Valid(p)
  {
    p.q[LOW] == [] && p.q[HIGHEST] != [] && p.q[HIGH] != [] && p.q[NORMAL] != []
  }

  /** The credits once no credit at all was taken for full credit. */
  ghost function UpperCredit(p: Queues): int { if Credit(p) == 0 then 26 else Credit(p) }

  /** With the upper levels busy and the lowest empty the credits count down from 26 to 1, round and round. */
  lemma {:induction false} UpperPop(p: Queues)
    requires Valid(p) && UpperBusy(p)
    ensures 1 <= UpperCredit(p) <= 26 && Served(p) == Some(LevelAt(UpperCredit(p)))
    ensures UpperCredit(Popped(p).1) == 1 + (UpperCredit(p) - 2) % 26
  {
    CreditRange(p);
  }

  lemma {:induction false} UpperRound(p: Queues, r: Queues)
    requires Valid(p) && Between(p, r) && UpperBusy(p)
    ensures UpperCredit(r) == 1 + (UpperCredit(p) - 2) % 26
  {
    UpperPop(p);
    PopTakesAFront(p);
  }

  lemma {:induction false} UpperCountsDown(c: seq<int>, k: nat)
    requires k < |c| && 1 <= c[0] <= 26 && forall i :: 0 <= i < k ==> c[i + 1] == 1 + (c[i] - 2) % 26
    ensures c[k] == 1 + (c[0] - 1 - k) % 26
  {
    if k > 0 {
      UpperCountsDown(c, k - 1);
      Step26(c[0] - k);
    }
  }

  lemma Step26(x: int)
    ensures (x % 26 - 1) % 26 == (x - 1) % 26
  {
  }

  lemma {:induction false} UpperCreditAt(t: seq<Queues>, k: nat)
    requires IsService(t) && k < |t| && 1 <= UpperCredit(t[0]) <= 26 && forall i :: 0 <= i < k ==> UpperBusy(t[i])
    ensures UpperCredit(t[k]) == 1 + (UpperCredit(t[0]) - 1 - k) % 26
  {
    var c := seq(k + 1, i requires 0 <= i <= k => UpperCredit(t[i]));
    forall i | 0 <= i < k ensures c[i + 1] == 1 + (c[i] - 2) % 26 {
      UpperRound(t[i], t[i + 1]);
    }
    UpperCountsDown(c, k);
  }

  lemma {:induction false} UpperSchedule(t: seq<Queues>, k: nat)
    requires IsService(t) && k < |t| && forall i :: 0 <= i <= k ==> UpperBusy(t[i])
    ensures 1 <= UpperCredit(t[0]) <= 26 && Served(t[k]) == Some(LevelAt(1 + (UpperCredit(t[0]) - 1 - k) % 26))
  {
    UpperPop(t[0]);
    UpperCreditAt(t, k);
    UpperPop(t[k]);
  }

  /** How often level `l` comes up in `n` steps down from `c`, round and round from 26 to 1. */
  function UpperServices(c: int, l: nat, n: nat): nat {
    if n == 0 then 0 else UpperServices(c, l, n - 1) + if LevelAt(1 + (c - 1 - (n - 1)) % 26) == l then 1 else 0
  }

  lemma {:induction false} UpperFromFirst(c: int, l: nat, n: nat)
    ensures UpperServices(c, l, n + 1) == UpperServices(c - 1, l, n) + if LevelAt(1 + (c - 1) % 26) == l then 1 else 0
  {
    if n > 0 { UpperFromFirst(c, l, n - 1); }
  }

  lemma RoundAgain(c: nat)
    requires 1 <= c < 26
    ensures 1 + (c + 1 - 1) % 26 == c + 1 && 1 + (c - 1 - 25) % 26 == c + 1
  {
  }

  lemma {:induction false} UpperPeriodIsAny(c: nat, l: nat)
    requires 1 <= c <= 26
    ensures UpperServices(c, l, 26) == UpperServices(26, l, 26)
    decreases 26 - c
  {
    if c < 26 {
      UpperPeriodIsAny(c + 1, l);
      UpperFromFirst(c + 1, l, 25);
      RoundAgain(c);
    }
  }

  lemma SameCountdown(n: nat)
    requires 1 <= n <= 26
    ensures 1 + (26 - 1 - (n - 1)) % 26 == (26 - (n - 1)) % 27
  {
  }

  /** From full credit the two countdowns agree until the first of them reaches the lowest level. */
  lemma {:induction false} UpperFromFull(l: nat, n: nat)
    requires n <= 26 && l < LEVELS
    ensures UpperServices(26, l, n) == Services(26, l, n)
  {
    if n > 0 {
      UpperFromFull(l, n - 1);
      SameCountdown(n);
    }
  }

  lemma {:induction false} UpperScheduleCounts(s: seq<Option<nat>>, c: int, l: nat)
    requires forall i :: 0 <= i < |s| ==> s[i] == Some(LevelAt(1 + (c - 1 - i) % 26))
    ensures Count(s, l) == UpperServices(c, l, |s|)
  {
    if s != [] { UpperScheduleCounts(s[..|s| - 1], c, l); }
  }

  const UPPER_SHARES: seq<nat> := [18, 6, 2, 0]

  /** Every 26 pops in which the upper levels are busy and the lowest is empty serve them 18, 6 and 2 times. */
  lemma {:induction false} UpperPeriodShares(t: seq<Queues>, l: nat)
    requires IsService(t) && |t| == 26 && l < LEVELS && forall i :: 0 <= i < 26 ==> UpperBusy(t[i])
    ensures Count(LevelsServed(t), l) == UPPER_SHARES[l]
  {
    var s, c := LevelsServed(t), UpperCredit(t[0]);
    forall i | 0 <= i < 26 ensures s[i] == Some(LevelAt(1 + (c - 1 - i) % 26)) {
      UpperSchedule(t, i);
    }
    UpperScheduleCounts(s, c, l);
    UpperPop(t[0]);
    UpperPeriodIsAny(c, l);
    UpperFromFull(l, 26);
    ServicesFromFull(l, 26);
  }
}
