/** Slicing and reassembly: filter/FlowSlicingFilter.cpp. */
module SlicingFilter {
  import opened Bytes
  import opened Common

  const HEADER := 6        // __slice_header_size: three 16-bit fields
  const BODY_SIZE := 400   // __msg_body_size
  const LIMIT := 394       // __slice_limit

  datatype Slice = Slice(count: Uint16, index: Uint16, flag: Uint16, body: seq<Byte>)

  // ---------------------------------------------------------------- slices as bytes

  function SliceToBytes(s: Slice): seq<Byte> { ToBytes(s.count, W16.Size()) + ToBytes(s.index, W16.Size()) + ToBytes(s.flag, W16.Size()) + s.body }

  function BytesToSlice(b: seq<Byte>): Slice
    requires |b| >= HEADER
  {
    Slice(Field(b, 0), Field(b, 2), Field(b, 4), b[HEADER..])
  }

  function Field(b: seq<Byte>, at: nat): Uint16
    requires at + 2 <= |b|
  {
    Bounds();
    FromBytesFits(b[at..at + 2]);
    FromBytes(b[at..at + 2])
  }

  lemma SliceRoundTrip(s: Slice)
    ensures |SliceToBytes(s)| == HEADER + |s.body|
    ensures BytesToSlice(SliceToBytes(s)) == s
    // count, index and flag, and the body behind them
    ensures var b := SliceToBytes(s);
            && b[0..2] == ToBytes(s.count, 2) && b[2..4] == ToBytes(s.index, 2) && b[4..6] == ToBytes(s.flag, 2) && b[6..] == s.body
  {
    var b := SliceToBytes(s);
    Bounds();
    BytesRoundTrip(s.count, W16.Size());
    BytesRoundTrip(s.index, W16.Size());
    BytesRoundTrip(s.flag, W16.Size());
    assert b[0..2] == ToBytes(s.count, W16.Size()) && b[2..4] == ToBytes(s.index, W16.Size()) && b[4..6] == ToBytes(s.flag, W16.Size());
    assert b[HEADER..] == s.body;
  }

  // ---------------------------------------------------------------- slicing

  /** What is seen of a body: its length is cut to 32 bits. */
  function Seen(body: seq<Byte>): seq<Byte> { body[..|body| % UINT32] }

  lemma SeenIsPrefix(body: seq<Byte>, from: nat, to: nat)
    requires from <= to <= |Seen(body)|
    ensures Seen(body)[from..to] == body[from..to]
  {
  }

  /** How many slices a message takes. */
  function SliceCount(size: nat): nat { size / LIMIT + if size % LIMIT > 0 then 1 else 0 }

  lemma LastSliceIsInside(size: nat, i: nat)
    requires i < SliceCount(size)
    ensures i * LIMIT < size
    ensures i + 1 < SliceCount(size) ==> (i + 1) * LIMIT <= size
    ensures i + 1 == SliceCount(size) ==> size <= (i + 1) * LIMIT
  {
  }

  function EndOf(size: nat, i: nat): nat { if i * LIMIT < size then i * LIMIT else size }

  /** Slice `i` of a message: the `i`-th stretch of LIMIT bytes, or what is left of it. */
  ghost function SliceAt(msg: seq<Byte>, flag: Uint16, i: nat): Slice
    requires i < SliceCount(|msg|)
  {
    LastSliceIsInside(|msg|, i);
    Slice(SliceCount(|msg|) % UINT16, i % UINT16, flag, msg[i * LIMIT..EndOf(|msg|, i + 1)])
  }

  ghost function SlicesOf(msg: seq<Byte>, flag: Uint16, n: nat): (r: seq<Slice>)
    requires n <= SliceCount(|msg|)
    ensures |r| == n && forall i :: 0 <= i < n ==> r[i] == SliceAt(msg, flag, i)
  {
    seq(n, i requires 0 <= i < n => SliceAt(msg, flag, i))
  }

  function Concat(s: seq<Slice>): seq<Byte> {
    if s == [] then [] else Concat(s[..|s| - 1]) + s[|s| - 1].body
  }

  lemma {:induction false} ConcatPrefix(msg: seq<Byte>, flag: Uint16, n: nat)
    requires n <= SliceCount(|msg|)
    ensures EndOf(|msg|, n) <= |msg| && Concat(SlicesOf(msg, flag, n)) == msg[..EndOf(|msg|, n)]
  {
    if n > 0 {
      var s := SlicesOf(msg, flag, n);
      assert s[..n - 1] == SlicesOf(msg, flag, n - 1);
      ConcatPrefix(msg, flag, n - 1);
      LastSliceIsInside(|msg|, n - 1);
    }
  }

  /** The slices of a message, put together, are the message, and each fits a packet. */
  lemma SlicesAreTheMessage(msg: seq<Byte>, flag: Uint16)
    ensures Concat(SlicesOf(msg, flag, SliceCount(|msg|))) == msg
    ensures forall i :: 0 <= i < SliceCount(|msg|) ==> 1 <= |SliceAt(msg, flag, i).body| && HEADER + |SliceAt(msg, flag, i).body| <= BODY_SIZE
  {
    var n := SliceCount(|msg|);
    ConcatPrefix(msg, flag, n);
    if n > 0 { LastSliceIsInside(|msg|, n - 1); }
    forall i | 0 <= i < n ensures 1 <= |SliceAt(msg, flag, i).body| && HEADER + |SliceAt(msg, flag, i).body| <= BODY_SIZE {
      LastSliceIsInside(|msg|, i);
    }
  }

  // ---------------------------------------------------------------- reassembly

  /** The slice map, and the messages handed to the previous filter. */
  datatype Inbox = Inbox(slices: map<Uint16, seq<Slice>>, delivered: seq<seq<Byte>>)

  function Place(s: seq<Slice>, x: Slice): seq<Slice> {
    if s != [] && x.index < s[|s| - 1].index then Place(s[..|s| - 1], x) + [s[|s| - 1]] else s + [x]
  }

  /** The slices in order of index. */
  function Sorted(s: seq<Slice>): seq<Slice> {
    if s == [] then [] else Place(Sorted(s[..|s| - 1]), s[|s| - 1])
  }

  /** A slice joins those with its flag; the last of the stated count completes the message. */
  function Received(b: Inbox, x: Slice): Inbox {
    var group := (if x.flag in b.slices then b.slices[x.flag] else []) + [x];
    if x.count == |group| % UINT16 then Inbox(b.slices - {x.flag}, b.delivered + [Concat(Sorted(group))])
    else b.(slices := b.slices[x.flag := group])
  }

  // ---------------------------------------------------------------- the filter as written

  class FlowSlicingFilter {
    var curFlag: Uint16
    var sliceMap: map<Uint16, seq<Slice>>
    var sent: seq<seq<Byte>>   // handed to the next filter
    var up: seq<seq<Byte>>     // handed to the previous filter

    constructor ()
      ensures curFlag == 0 && sliceMap == map[] && sent == [] && up == []
    {
      curFlag, sliceMap, sent, up := 0, map[], [], [];
    }

    function View(): Inbox
      reads this
    {
      Inbox(sliceMap, up)
    }

    /** Slice and send; `refuses[i]` tells whether the next filter turns the i-th slice down. */
    method FilterProcess(body: seq<Byte>, refuses: seq<bool>) returns (ok: bool)
      requires |refuses| == SliceCount(|Seen(body)|)
      modifies this`curFlag, this`sent
      ensures curFlag == (old(curFlag) + 1) % UINT16
      ensures ok <==> forall i :: 0 <= i < |refuses| ==> !refuses[i]
      ensures exists n :: (if ok then n == |refuses| else 1 <= n <= |refuses| && refuses[n - 1] && forall i :: 0 <= i < n - 1 ==> !refuses[i])
                && sent == old(sent) + AsBytes(SlicesOf(Seen(body), curFlag, n))
    {
      curFlag := (curFlag + 1) % UINT16;
      var total := |body| % UINT32;
      var sliceNum := total / LIMIT;
      if total % LIMIT > 0 {
        sliceNum := sliceNum + 1;
      }
      var cur := 0;
      ghost var before, seen := sent, Seen(body);
      assert before == before + AsBytes(SlicesOf(seen, curFlag, 0));
      for i := 0 to sliceNum
        invariant cur == EndOf(total, i) && curFlag == (old(curFlag) + 1) % UINT16
        invariant forall j :: 0 <= j < i ==> !refuses[j]
        invariant sent == before + AsBytes(SlicesOf(seen, curFlag, i))
      {
        var bag;
        bag, cur := CutSlice(body, total, sliceNum, i, cur);
        AsBytesGrows(seen, curFlag, i);
        sent := sent + [SliceToBytes(bag)];
        if refuses[i] {
          return false;
        }
      }
      return true;
    }

    /** The slice from `cur` on, and where the next one starts. */
    method CutSlice(body: seq<Byte>, total: nat, sliceNum: nat, i: nat, cur: nat) returns (bag: Slice, next: nat)
      requires total == |Seen(body)| && sliceNum == SliceCount(total) && i < sliceNum && cur == EndOf(total, i)
      ensures bag == SliceAt(Seen(body), curFlag, i) && next == EndOf(total, i + 1)
    {
      LastSliceIsInside(total, i);
      var data;
      if total - cur < LIMIT {
        data := body[cur..total];
        next := total;
      } else {
        data := body[cur..cur + LIMIT];
        next := cur + LIMIT;
      }
      SeenIsPrefix(body, cur, next);
      bag := Slice(sliceNum % UINT16, i % UINT16, curFlag, data);
    }

    /** Take in one slice. */
    method RelieveFilterProcess(bytes: seq<Byte>)
      requires |bytes| >= HEADER
      modifies this`sliceMap, this`up
      ensures View() == Received(old(View()), BytesToSlice(bytes))
    {
      var bag := BytesToSlice(bytes);
      sliceMap := sliceMap[bag.flag := (if bag.flag in sliceMap then sliceMap[bag.flag] else []) + [bag]];
      if bag.count == |sliceMap[bag.flag]| % UINT16 {
        var sorted := Sorted(sliceMap[bag.flag]);
        var msg := [];
        for i := 0 to |sorted|
          invariant msg == Concat(sorted[..i])
        {
          assert sorted[..i + 1][..i] == sorted[..i];
          msg := msg + sorted[i].body;
        }
        assert sorted[..|sorted|] == sorted;
        ghost var grown := sliceMap;
        sliceMap := sliceMap - {bag.flag};
        assert sliceMap == old(sliceMap) - {bag.flag};
        up := up + [msg];
      }
    }
  }

  ghost function AsBytes(s: seq<Slice>): (r: seq<seq<Byte>>)
    ensures |r| == |s| && forall i :: 0 <= i < |s| ==> r[i] == SliceToBytes(s[i])
  {
    seq(|s|, i requires 0 <= i < |s| => SliceToBytes(s[i]))
  }

  lemma AsBytesGrows(body: seq<Byte>, flag: Uint16, i: nat)
    requires i < SliceCount(|body|)
    ensures AsBytes(SlicesOf(body, flag, i + 1)) == AsBytes(SlicesOf(body, flag, i)) + [SliceToBytes(SliceAt(body, flag, i))]
  {
  }

  // ---------------------------------------------------------------- sorting the slices of one message

  ghost predicate Increasing(s: seq<Slice>) { forall i, j :: 0 <= i < j < |s| ==> s[i].index < s[j].index }

  ghost predicate Distinct(s: seq<Slice>) { forall i, j :: 0 <= i < j < |s| ==> s[i].index != s[j].index }

  lemma AppendKeepsOrder(s: seq<Slice>, x: Slice)
    requires Increasing(s) && (s != [] ==> s[|s| - 1].index < x.index)
    ensures Increasing(s + [x])
  {
    forall i | 0 <= i < |s| ensures s[i].index < x.index {
      if i < |s| - 1 { assert s[i].index < s[|s| - 1].index; }
    }
  }

  lemma {:induction false} PlaceHolds(s: seq<Slice>, x: Slice)
    ensures |Place(s, x)| == |s| + 1 && forall y :: y in Place(s, x) <==> y == x || y in s
  {
    if s != [] && x.index < s[|s| - 1].index {
      PlaceHolds(s[..|s| - 1], x);
      assert s == s[..|s| - 1] + [s[|s| - 1]];
    }
  }

  lemma {:induction false} PlaceKeepsOrder(s: seq<Slice>, x: Slice)
    requires Increasing(s) && forall y :: y in s ==> y.index != x.index
    ensures Increasing(Place(s, x))
  {
    if s != [] && x.index < s[|s| - 1].index {
      var front, last := s[..|s| - 1], s[|s| - 1];
      PlaceKeepsOrder(front, x);
      PlaceHolds(front, x);
      var p := Place(front, x);
      assert p[|p| - 1] in p;
      AppendKeepsOrder(p, last);
    } else {
      if s != [] { assert s[|s| - 1] in s; }
      AppendKeepsOrder(s, x);
    }
  }

  lemma LastIsApart(s: seq<Slice>)
    requires s != [] && Distinct(s)
    ensures Distinct(s[..|s| - 1]) && forall y :: y in s[..|s| - 1] ==> y.index != s[|s| - 1].index
  {
  }

  lemma {:induction false} SortedIsIncreasing(s: seq<Slice>)
    requires Distinct(s)
    ensures Increasing(Sorted(s)) && |Sorted(s)| == |s|
    ensures forall y :: y in Sorted(s) <==> y in s
  {
    if s != [] {
      var front, last := s[..|s| - 1], s[|s| - 1];
      LastIsApart(s);
      SortedIsIncreasing(front);
      assert s == front + [last];
      PlaceKeepsOrder(Sorted(front), last);
      PlaceHolds(Sorted(front), last);
    }
  }

  /** As many increasing indices as there are numbers below them leave no gap. */
  lemma {:induction false} IncreasingFromZero(s: seq<Slice>, i: nat)
    requires Increasing(s) && i < |s|
    ensures s[i].index >= i
  {
    if i > 0 { IncreasingFromZero(s, i - 1); }
  }

  lemma {:induction false} IncreasingToTop(s: seq<Slice>, i: nat, n: nat)
    requires Increasing(s) && i < |s| && forall y :: y in s ==> y.index < n
    ensures s[i].index <= n - (|s| - i)
    decreases |s| - i
  {
    assert s[i] in s;
    if i + 1 < |s| { IncreasingToTop(s, i + 1, n); }
  }

  ghost predicate IsSliceOf(x: Slice, msg: seq<Byte>, flag: Uint16) {
    x.index < SliceCount(|msg|) && x == SliceAt(msg, flag, x.index)
  }

  lemma IndexIsPosition(s: seq<Slice>, i: nat)
    requires Increasing(s) && i < |s| && forall y :: y in s ==> y.index < |s|
    ensures s[i].index == i
  {
    IncreasingFromZero(s, i);
    IncreasingToTop(s, i, |s|);
  }

  lemma {:induction false} SortedSliceAt(msg: seq<Byte>, flag: Uint16, s: seq<Slice>, i: nat)
    requires i < |s| == SliceCount(|msg|) && Distinct(s) && forall y :: y in s ==> IsSliceOf(y, msg, flag)
    ensures |Sorted(s)| == |s| && Sorted(s)[i] == SliceAt(msg, flag, i)
  {
    var r := Sorted(s);
    SortedIsIncreasing(s);
    assert r[i] in r && IsSliceOf(r[i], msg, flag);
    IndexIsPosition(r, i);
  }

  /** All slices of a message, each once and in any order, sort and join to the message. */
  lemma {:induction false} AllSlicesGiveTheMessage(msg: seq<Byte>, flag: Uint16, s: seq<Slice>)
    requires |s| == SliceCount(|msg|) && Distinct(s) && forall y :: y in s ==> IsSliceOf(y, msg, flag)
    ensures Concat(Sorted(s)) == msg
  {
    SortedIsIncreasing(s);
    forall i | 0 <= i < |s| ensures Sorted(s)[i] == SlicesOf(msg, flag, |s|)[i] {
      SortedSliceAt(msg, flag, s, i);
    }
    SlicesAreTheMessage(msg, flag);
    assert Sorted(s) == SlicesOf(msg, flag, |s|);
  }

  // ---------------------------------------------------------------- any interleaving of any messages

  /** Slice `slice` of message `msg` arrives. */
  datatype Arrival = Arrival(msg: nat, slice: nat)

  /** Non-empty messages of at most 65535 slices, sent under distinct flags. */
  ghost predicate Sendable(msgs: seq<seq<Byte>>, flags: seq<Uint16>) {
    && |flags| == |msgs|
    && (forall j :: 0 <= j < |msgs| ==> msgs[j] != [] && SliceCount(|msgs[j]|) < UINT16)
    && (forall i, j :: 0 <= i < j < |flags| ==> flags[i] != flags[j])
  }

  ghost predicate IsArrival(msgs: seq<seq<Byte>>, a: Arrival) { a.msg < |msgs| && a.slice < SliceCount(|msgs[a.msg]|) }

  /** Arrivals of existing slices, none twice. */
  ghost predicate Orderly(msgs: seq<seq<Byte>>, order: seq<Arrival>) {
    NoRepeats(order) && forall a :: a in order ==> IsArrival(msgs, a)
  }

  /** The slices of message `j` that have arrived, in order of arrival. */
  ghost function Of(order: seq<Arrival>, j: nat): seq<nat> {
    if order == [] then [] else
    Of(order[..|order| - 1], j) + if order[|order| - 1].msg == j then [order[|order| - 1].slice] else []
  }

  ghost function Group(msg: seq<Byte>, flag: Uint16, q: seq<nat>): (r: seq<Slice>)
    requires forall i :: 0 <= i < |q| ==> q[i] < SliceCount(|msg|)
    ensures |r| == |q| && forall i :: 0 <= i < |q| ==> r[i] == SliceAt(msg, flag, q[i])
  {
    seq(|q|, i requires 0 <= i < |q| => SliceAt(msg, flag, q[i]))
  }

  lemma {:induction false} OfHolds(order: seq<Arrival>, j: nat, x: nat)
    ensures x in Of(order, j) <==> Arrival(j, x) in order
  {
    if order != [] {
      OfHolds(order[..|order| - 1], j, x);
      assert order == order[..|order| - 1] + [order[|order| - 1]];
    }
  }

  lemma LastIsNew<T>(s: seq<T>)
    requires s != [] && NoRepeats(s)
    ensures NoRepeats(s[..|s| - 1]) && s[|s| - 1] !in s[..|s| - 1]
  {
  }

  lemma {:induction false} OfHasNoRepeats(order: seq<Arrival>, j: nat)
    requires NoRepeats(order)
    ensures NoRepeats(Of(order, j))
  {
    if order != [] {
      var front, a := order[..|order| - 1], order[|order| - 1];
      OfHasNoRepeats(front, j);
      if a.msg == j {
        OfHolds(front, j, a.slice);
        LastIsNew(order);
      }
    }
  }

  // Counting distinct numbers.

  ghost function Below(n: nat): (r: set<nat>)
    ensures forall x: nat :: x in r <==> x < n
  {
    if n == 0 then {} else Below(n - 1) + {n - 1}
  }

  lemma {:induction false} BelowCounts(n: nat)
    ensures |Below(n)| == n
  {
    if n > 0 {
      BelowCounts(n - 1);
    }
  }

  lemma SubsetIsNoLarger(a: set<nat>, b: set<nat>)
    requires a <= b
    ensures |a| <= |b|
  {
    assert b == a + (b - a);
  }

  /** Distinct numbers below `n` are at most `n`, and all of them when there are `n`. */
  lemma DistinctBelow(s: seq<nat>, n: nat)
    requires NoRepeats(s) && forall x :: x in s ==> x < n
    ensures |s| <= n
    ensures (forall x: nat :: x < n ==> x in s) ==> |s| == n
  {
    NoRepeatsCounts(s);
    BelowCounts(n);
    assert Elements(s) <= Below(n);
    SubsetIsNoLarger(Elements(s), Below(n));
    if forall x: nat :: x < n ==> x in s { assert Elements(s) == Below(n); }
  }

  /** What the inbox holds for message `j`: nothing before its first slice and after its last,
      else its slices so far. */
  ghost predicate HoldsFor(b: Inbox, msg: seq<Byte>, flag: Uint16, q: seq<nat>) {
    && (forall i :: 0 <= i < |q| ==> q[i] < SliceCount(|msg|))
    && if q == [] || |q| == SliceCount(|msg|) then flag !in b.slices else flag in b.slices && b.slices[flag] == Group(msg, flag, q)
  }

  ghost predicate Holds(b: Inbox, msgs: seq<seq<Byte>>, flags: seq<Uint16>, before: seq<Arrival>)
    requires |flags| == |msgs|
  {
    && (forall j :: 0 <= j < |msgs| ==> HoldsFor(b, msgs[j], flags[j], Of(before, j)))
    && (forall f :: f in b.slices ==> f in flags)
  }

  /** The messages completed by the arrivals, in order of their last slices. */
  ghost function Completed(msgs: seq<seq<Byte>>, order: seq<Arrival>): seq<nat> {
    if order == [] then [] else
    var j := order[|order| - 1].msg;
    Completed(msgs, order[..|order| - 1]) + if j < |msgs| && |Of(order, j)| == SliceCount(|msgs[j]|) then [j] else []
  }

  ghost function Bodies(msgs: seq<seq<Byte>>, js: seq<nat>): seq<seq<Byte>> {
    if js == [] then [] else Bodies(msgs, js[..|js| - 1]) + if js[|js| - 1] < |msgs| then [msgs[js[|js| - 1]]] else []
  }

  /** The inbox after the slices arrive. */
  ghost function Run(msgs: seq<seq<Byte>>, flags: seq<Uint16>, order: seq<Arrival>): Inbox
    requires |flags| == |msgs| && forall i :: 0 <= i < |order| ==> IsArrival(msgs, order[i])
  {
    if order == [] then Inbox(map[], []) else
    var a := order[|order| - 1];
    assert IsArrival(msgs, a);
    Received(Run(msgs, flags, order[..|order| - 1]), SliceAt(msgs[a.msg], flags[a.msg], a.slice))
  }

  lemma GroupIsMessage(msg: seq<Byte>, flag: Uint16, q: seq<nat>)
    requires SliceCount(|msg|) < UINT16 && NoRepeats(q) && |q| == SliceCount(|msg|)
    requires forall i :: 0 <= i < |q| ==> q[i] < SliceCount(|msg|)
    ensures Concat(Sorted(Group(msg, flag, q))) == msg
  {
    var group := Group(msg, flag, q);
    forall i | 0 <= i < |group| ensures group[i].index == q[i] && IsSliceOf(group[i], msg, flag) {}
    assert Distinct(group);
    AllSlicesGiveTheMessage(msg, flag, group);
  }

  lemma GroupGrows(msg: seq<Byte>, flag: Uint16, q: seq<nat>, x: nat)
    requires forall i :: 0 <= i < |q| ==> q[i] < SliceCount(|msg|)
    requires x < SliceCount(|msg|)
    ensures Group(msg, flag, q + [x]) == Group(msg, flag, q) + [SliceAt(msg, flag, x)]
  {
  }

  ghost predicate SameElsewhere(b: Inbox, r: Inbox, flag: Uint16) {
    forall f :: f != flag ==> (f in r.slices <==> f in b.slices) && (f in r.slices ==> r.slices[f] == b.slices[f])
  }

  /** The group a slice joins. */
  ghost function Joined(b: Inbox, x: Slice): seq<Slice> { (if x.flag in b.slices then b.slices[x.flag] else []) + [x] }

  lemma ReceivedLast(b: Inbox, x: Slice)
    requires |Joined(b, x)| < UINT16 && x.count == |Joined(b, x)|
    ensures Received(b, x) == Inbox(b.slices - {x.flag}, b.delivered + [Concat(Sorted(Joined(b, x)))])
    ensures SameElsewhere(b, Received(b, x), x.flag)
  {
    assert |Joined(b, x)| % UINT16 == |Joined(b, x)|;
  }

  lemma ReceivedEarlier(b: Inbox, x: Slice)
    requires |Joined(b, x)| < UINT16 && x.count != |Joined(b, x)|
    ensures Received(b, x) == b.(slices := b.slices[x.flag := Joined(b, x)])
    ensures SameElsewhere(b, Received(b, x), x.flag)
  {
    assert |Joined(b, x)| % UINT16 == |Joined(b, x)|;
  }

  lemma JoinedIsGroup(b: Inbox, msg: seq<Byte>, flag: Uint16, q: seq<nat>, x: nat)
    requires HoldsFor(b, msg, flag, q) && |q| < SliceCount(|msg|) < UINT16 && x < SliceCount(|msg|)
    ensures Joined(b, SliceAt(msg, flag, x)) == Group(msg, flag, q + [x])
    ensures SliceAt(msg, flag, x).count == SliceCount(|msg|)
  {
    GroupGrows(msg, flag, q, x);
    if q == [] { assert Group(msg, flag, q) == []; }
  }

  /** One slice more of a message: its group grows, or the message is delivered whole. */
  lemma {:induction false} SliceJoins(b: Inbox, msg: seq<Byte>, flag: Uint16, q: seq<nat>, x: nat)
    requires SliceCount(|msg|) < UINT16 && HoldsFor(b, msg, flag, q)
    requires NoRepeats(q + [x]) && x < SliceCount(|msg|)
    ensures var r := Received(b, SliceAt(msg, flag, x));
            && HoldsFor(r, msg, flag, q + [x]) && SameElsewhere(b, r, flag)
            && r.delivered == b.delivered + if |q| + 1 == SliceCount(|msg|) then [msg] else []
  {
    var n := SliceCount(|msg|);
    forall y | y in q + [x] ensures y < n {
      var i :| 0 <= i < |q| + 1 && (q + [x])[i] == y;
    }
    DistinctBelow(q + [x], n);
    JoinedIsGroup(b, msg, flag, q, x);
    if |q| + 1 == n {
      GroupIsMessage(msg, flag, q + [x]);
      ReceivedLast(b, SliceAt(msg, flag, x));
    } else {
      ReceivedEarlier(b, SliceAt(msg, flag, x));
      assert b.delivered + [] == b.delivered;
    }
  }

  lemma {:induction false} OfAppend(order: seq<Arrival>, a: Arrival, j: nat)
    ensures Of(order + [a], j) == Of(order, j) + if a.msg == j then [a.slice] else []
  {
    assert (order + [a])[..|order|] == order;
  }

  lemma OtherFlag(flags: seq<Uint16>, i: nat, j: nat)
    requires i < |flags| && j < |flags| && i != j && forall i, j :: 0 <= i < j < |flags| ==> flags[i] != flags[j]
    ensures flags[i] != flags[j]
  {
  }

  /** One arrival keeps the inbox in step, and delivers the message it completes. */
  lemma {:induction false} ArrivalKeepsHolds(b: Inbox, msgs: seq<seq<Byte>>, flags: seq<Uint16>, before: seq<Arrival>, a: Arrival)
    requires Sendable(msgs, flags) && Orderly(msgs, before + [a]) && Holds(b, msgs, flags, before) && IsArrival(msgs, a)
    ensures var r := Received(b, SliceAt(msgs[a.msg], flags[a.msg], a.slice));
            && Holds(r, msgs, flags, before + [a])
            && r.delivered == b.delivered + if |Of(before + [a], a.msg)| == SliceCount(|msgs[a.msg]|) then [msgs[a.msg]] else []
  {
    var j := a.msg;
    OfAppend(before, a, j);
    OfHasNoRepeats(before + [a], j);
    SliceJoins(b, msgs[j], flags[j], Of(before, j), a.slice);
    var r := Received(b, SliceAt(msgs[j], flags[j], a.slice));
    forall i | 0 <= i < |msgs| ensures HoldsFor(r, msgs[i], flags[i], Of(before + [a], i)) {
      OfAppend(before, a, i);
      if i != j {
        assert HoldsFor(b, msgs[i], flags[i], Of(before, i));
        OtherFlag(flags, i, j);
        assert Of(before, i) + [] == Of(before, i);
      }
    }
    forall f | f in r.slices ensures f in flags {
      if f != flags[j] { assert f in b.slices; }
    }
  }

  lemma {:induction false} CompletedAppend(msgs: seq<seq<Byte>>, order: seq<Arrival>, a: Arrival)
    requires IsArrival(msgs, a)
    ensures Completed(msgs, order + [a]) == Completed(msgs, order) + if |Of(order + [a], a.msg)| == SliceCount(|msgs[a.msg]|) then [a.msg] else []
  {
    assert (order + [a])[..|order|] == order;
  }

  lemma {:induction false} BodiesAppend(msgs: seq<seq<Byte>>, js: seq<nat>, j: nat)
    requires j < |msgs|
    ensures Bodies(msgs, js + [j]) == Bodies(msgs, js) + [msgs[j]]
  {
    assert (js + [j])[..|js|] == js;
  }

  lemma OrderlyPrefix(msgs: seq<seq<Byte>>, order: seq<Arrival>)
    requires Orderly(msgs, order) && order != []
    ensures Orderly(msgs, order[..|order| - 1]) && IsArrival(msgs, order[|order| - 1])
    ensures order[..|order| - 1] + [order[|order| - 1]] == order
  {
    assert order[|order| - 1] in order;
    forall a | a in order[..|order| - 1] ensures a in order {}
  }

  lemma {:induction false} RunHolds(msgs: seq<seq<Byte>>, flags: seq<Uint16>, order: seq<Arrival>)
    requires Sendable(msgs, flags) && Orderly(msgs, order) && forall i :: 0 <= i < |order| ==> IsArrival(msgs, order[i])
    ensures Holds(Run(msgs, flags, order), msgs, flags, order)
    ensures Run(msgs, flags, order).delivered == Bodies(msgs, Completed(msgs, order))
  {
    if order != [] {
      var front, a := order[..|order| - 1], order[|order| - 1];
      OrderlyPrefix(msgs, order);
      RunHolds(msgs, flags, front);
      ArrivalKeepsHolds(Run(msgs, flags, front), msgs, flags, front, a);
      CompletedAppend(msgs, front, a);
      BodiesAppend(msgs, Completed(msgs, front), a.msg);
      assert Completed(msgs, front) + [] == Completed(msgs, front);
    }
  }

  /** A message is among the completed exactly when all its slices have arrived, and only once. */
  lemma {:induction false} CompletedOnce(msgs: seq<seq<Byte>>, order: seq<Arrival>)
    requires Orderly(msgs, order) && forall j :: 0 <= j < |msgs| ==> msgs[j] != []
    ensures NoRepeats(Completed(msgs, order))
    ensures forall j: nat :: j in Completed(msgs, order) <==> j < |msgs| && |Of(order, j)| == SliceCount(|msgs[j]|)
  {
    if order == [] {
      forall j | 0 <= j < |msgs| ensures SliceCount(|msgs[j]|) > 0 {}
    } else {
      var front, a := order[..|order| - 1], order[|order| - 1];
      OrderlyPrefix(msgs, order);
      CompletedOnce(msgs, front);
      CompletedAppend(msgs, front, a);
      OfAppend(front, a, a.msg);
      OfBounded(msgs, order, a.msg);
      assert a.msg !in Completed(msgs, front);
      forall j | 0 <= j < |msgs| && j != a.msg ensures Of(order, j) == Of(front, j) {
        OfAppend(front, a, j);
      }
    }
  }

  lemma {:induction false} OfBounded(msgs: seq<seq<Byte>>, order: seq<Arrival>, j: nat)
    requires Orderly(msgs, order) && j < |msgs|
    ensures |Of(order, j)| <= SliceCount(|msgs[j]|)
    ensures (forall i: nat :: i < SliceCount(|msgs[j]|) ==> Arrival(j, i) in order) ==> |Of(order, j)| == SliceCount(|msgs[j]|)
  {
    OfHasNoRepeats(order, j);
    forall x: nat ensures x in Of(order, j) <==> Arrival(j, x) in order {
      OfHolds(order, j, x);
    }
    forall x | x in Of(order, j) ensures x < SliceCount(|msgs[j]|) {
      assert IsArrival(msgs, Arrival(j, x));
    }
    DistinctBelow(Of(order, j), SliceCount(|msgs[j]|));
  }

  /** Slicing then reassembly is the identity, whatever the interleaving: when every slice of every
      message arrives once, in any order, each message is delivered exactly once, whole, at the
      arrival of its last slice, and the slice map ends empty. */
  lemma {:induction false} ReassemblyIsIdentity(msgs: seq<seq<Byte>>, flags: seq<Uint16>, order: seq<Arrival>)
    requires Sendable(msgs, flags) && Orderly(msgs, order) && forall i :: 0 <= i < |order| ==> IsArrival(msgs, order[i])
    requires forall j: nat, i: nat :: j < |msgs| && i < SliceCount(|msgs[j]|) ==> Arrival(j, i) in order
    ensures var b, done := Run(msgs, flags, order), Completed(msgs, order);
            && b.slices == map[] && b.delivered == Bodies(msgs, done)
            && NoRepeats(done) && (forall j: nat :: j in done <==> j < |msgs|)
  {
    RunHolds(msgs, flags, order);
    CompletedOnce(msgs, order);
    var b := Run(msgs, flags, order);
    forall j: nat | j < |msgs| ensures |Of(order, j)| == SliceCount(|msgs[j]|) && flags[j] !in b.slices {
      OfBounded(msgs, order, j);
      assert HoldsFor(b, msgs[j], flags[j], Of(order, j));
    }
    assert forall f :: f in flags ==> f !in b.slices;
  }

  // ---------------------------------------------------------------- one flag for two messages

  /** The map is keyed by the flag alone, so messages of two peers under one flag share a group. */
  ghost function AllReceived(xs: seq<Slice>): Inbox {
    if xs == [] then Inbox(map[], []) else Received(AllReceived(xs[..|xs| - 1]), xs[|xs| - 1])
  }

  /** The first `k` slices of `a`, and the others of `b`. */
  ghost function Mixed(a: seq<Byte>, b: seq<Byte>, k: nat): seq<Byte>
    requires k < SliceCount(|a|) == SliceCount(|b|)
  {
    LastSliceIsInside(|a|, k);
    LastSliceIsInside(|b|, k);
    a[..k * LIMIT] + b[k * LIMIT..]
  }

  lemma BackOfSplice(front: seq<Byte>, s: seq<Byte>, i: nat, j: nat)
    requires |front| <= i <= j <= |s|
    ensures (front + s[|front|..])[i..j] == s[i..j]
  {
    forall x | i <= x < j ensures (front + s[|front|..])[x] == s[x] {}
  }

  lemma MixedSlice(a: seq<Byte>, b: seq<Byte>, flag: Uint16, k: nat, i: nat)
    requires k < SliceCount(|a|) == SliceCount(|b|) && i < SliceCount(|a|)
    ensures |Mixed(a, b, k)| == |b|
    ensures SliceAt(Mixed(a, b, k), flag, i) == SliceAt(if i < k then a else b, flag, i)
  {
    LastSliceIsInside(|a|, k);
    LastSliceIsInside(|b|, k);
    LastSliceIsInside(|b|, i);
    LastSliceIsInside(|a|, i);
    if i < k {
      assert (i + 1) * LIMIT <= k * LIMIT;
      assert Mixed(a, b, k)[i * LIMIT..(i + 1) * LIMIT] == a[i * LIMIT..(i + 1) * LIMIT];
    } else {
      assert k * LIMIT <= i * LIMIT;
      BackOfSplice(a[..k * LIMIT], b, i * LIMIT, EndOf(|b|, i + 1));
    }
  }

  /** The slices of one message, each once and in any order, deliver it. */
  lemma {:induction false} GroupDelivers(msg: seq<Byte>, flag: Uint16, q: seq<nat>)
    requires 0 < SliceCount(|msg|) < UINT16 && NoRepeats(q) && forall i :: 0 <= i < |q| ==> q[i] < SliceCount(|msg|)
    ensures var r := AllReceived(Group(msg, flag, q));
            && HoldsFor(r, msg, flag, q) && (forall f :: f in r.slices ==> f == flag)
            && r.delivered == if |q| == SliceCount(|msg|) then [msg] else []
  {
    if q != [] {
      var front, x := q[..|q| - 1], q[|q| - 1];
      assert front + [x] == q;
      DistinctBelow(q, SliceCount(|msg|));
      GroupDelivers(msg, flag, front);
      GroupGrows(msg, flag, front, x);
      SliceJoins(AllReceived(Group(msg, flag, front)), msg, flag, front, x);
    }
  }

  /** Why the flags must be distinct: when the first `k` slices of one message and the others of
      another, sliced into as many under the same flag, arrive in any order, one message is
      delivered that is made of both; it is one of the two only where they are the same. */
  lemma {:induction false} SharedFlagMixes(a: seq<Byte>, b: seq<Byte>, flag: Uint16, k: nat, q: seq<nat>, xs: seq<Slice>)
    requires k < SliceCount(|a|) == SliceCount(|b|) < UINT16
    requires NoRepeats(q) && |q| == SliceCount(|a|) && forall i :: 0 <= i < |q| ==> q[i] < |q|
    requires |xs| == |q| && forall i :: 0 <= i < |xs| ==> xs[i] == SliceAt(if q[i] < k then a else b, flag, q[i])
    ensures k * LIMIT <= |a| && k * LIMIT <= |b|
    ensures AllReceived(xs) == Inbox(map[], [a[..k * LIMIT] + b[k * LIMIT..]])
    ensures AllReceived(xs).delivered == [a] <==> a[k * LIMIT..] == b[k * LIMIT..]
    ensures AllReceived(xs).delivered == [b] <==> a[..k * LIMIT] == b[..k * LIMIT]
  {
    LastSliceIsInside(|a|, k);
    LastSliceIsInside(|b|, k);
    var msg := Mixed(a, b, k);
    MixedSlice(a, b, flag, k, k);
    forall i | 0 <= i < |q| ensures xs[i] == Group(msg, flag, q)[i] { MixedSlice(a, b, flag, k, q[i]); }
    assert xs == Group(msg, flag, q);
    GroupDelivers(msg, flag, q);
    SplitIsEqual(a, a[..k * LIMIT], b[k * LIMIT..]);
    SplitIsEqual(b, a[..k * LIMIT], b[k * LIMIT..]);
  }

  lemma SplitIsEqual(s: seq<Byte>, front: seq<Byte>, back: seq<Byte>)
    requires |front| <= |s|
    ensures front + back == s <==> front == s[..|front|] && back == s[|front|..]
  {
    if front == s[..|front|] && back == s[|front|..] { assert s == s[..|front|] + s[|front|..]; }
    if front + back == s { assert (front + back)[..|front|] == front && (front + back)[|front|..] == back; }
  }

  // ---------------------------------------------------------------- repeated slices

  /** A message is complete when as many of its slices have come as it has, whichever they are. */
  lemma {:induction false} AnySlicesComplete(msg: seq<Byte>, flag: Uint16, q: seq<nat>)
    requires 0 < SliceCount(|msg|) < UINT16 && |q| <= SliceCount(|msg|) && forall i :: 0 <= i < |q| ==> q[i] < SliceCount(|msg|)
    ensures var group := Group(msg, flag, q);
            AllReceived(group) == if q == [] then Inbox(map[], []) else if |q| < SliceCount(|msg|) then Inbox(map[flag := group], [])
                                  else Inbox(map[], [Concat(Sorted(group))])
  {
    if q != [] {
      var front, x := q[..|q| - 1], q[|q| - 1];
      assert front + [x] == q;
      AnySlicesComplete(msg, flag, front);
      GroupGrows(msg, flag, front, x);
      OneSliceMore(msg, flag, front, x);
    }
  }

  lemma {:induction false} OneSliceMore(msg: seq<Byte>, flag: Uint16, q: seq<nat>, x: nat)
    requires |q| < SliceCount(|msg|) < UINT16 && x < SliceCount(|msg|) && forall i :: 0 <= i < |q| ==> q[i] < SliceCount(|msg|)
    ensures var b := if q == [] then Inbox(map[], []) else Inbox(map[flag := Group(msg, flag, q)], []);
            var group := Group(msg, flag, q + [x]);
            Received(b, SliceAt(msg, flag, x)) == if |q| + 1 < SliceCount(|msg|) then Inbox(map[flag := group], []) else Inbox(map[], [Concat(Sorted(group))])
  {
    GroupGrows(msg, flag, q, x);
    var b := if q == [] then Inbox(map[], []) else Inbox(map[flag := Group(msg, flag, q)], []);
    if q == [] { assert Group(msg, flag, q) == []; }
    assert Joined(b, SliceAt(msg, flag, x)) == Group(msg, flag, q + [x]);
    if |q| + 1 < SliceCount(|msg|) { ReceivedEarlier(b, SliceAt(msg, flag, x)); } else { ReceivedLast(b, SliceAt(msg, flag, x)); }
  }

  /** So a slice that comes twice stands in for one that does not: what is delivered then is made
      without it, while without repeats it is the message. */
  lemma {:induction false} RepeatsStandIn(msg: seq<Byte>, flag: Uint16, q: seq<nat>)
    requires |q| == SliceCount(|msg|) && 0 < |q| < UINT16 && forall i :: 0 <= i < |q| ==> q[i] < |q|
    ensures |AllReceived(Group(msg, flag, q)).delivered| == 1 && AllReceived(Group(msg, flag, q)).slices == map[]
    ensures NoRepeats(q) ==> AllReceived(Group(msg, flag, q)).delivered == [msg]
    ensures NoRepeats(q) <==> forall x: nat :: x < |q| ==> x in q
  {
    AnySlicesComplete(msg, flag, q);
    if NoRepeats(q) {
      GroupIsMessage(msg, flag, q);
      AllAreThere(q);
    } else {
      OneIsMissing(q);
    }
  }

  lemma AllAreThere(q: seq<nat>)
    requires NoRepeats(q) && forall x :: x in q ==> x < |q|
    ensures forall x: nat :: x < |q| ==> x in q
  {
    NoRepeatsCounts(q);
    BelowCounts(|q|);
    var below := Below(|q|);
    forall x | x in Elements(q) ensures x in below { assert x in q; }
    LargeSubsetIsAll(Elements(q), below);
    forall x: nat | x < |q| ensures x in q { assert x in below && x in Elements(q); }
  }

  lemma LargeSubsetIsAll(a: set<nat>, b: set<nat>)
    requires a <= b && |a| == |b|
    ensures a == b
  {
    assert b == a + (b - a);
  }

  lemma OneIsMissing(q: seq<nat>)
    requires !NoRepeats(q)
    ensures exists x: nat :: x < |q| && x !in q
  {
    BelowCounts(|q|);
    RepeatsCountLess(q);
    if forall x: nat :: x < |q| ==> x in q {
      assert Below(|q|) <= Elements(q);
      SubsetIsNoLarger(Below(|q|), Elements(q));
    }
  }

  lemma {:induction false} ElementsAtMost(q: seq<nat>)
    ensures |Elements(q)| <= |q|
  {
    if q != [] {
      var front, last := q[..|q| - 1], q[|q| - 1];
      ElementsAtMost(front);
      assert q == front + [last];
      assert Elements(q) == Elements(front) + {last};
    }
  }

  lemma {:induction false} RepeatsCountLess(q: seq<nat>)
    requires !NoRepeats(q)
    ensures |Elements(q)| < |q|
  {
    var front, last := q[..|q| - 1], q[|q| - 1];
    assert q == front + [last];
    assert Elements(q) == Elements(front) + {last};
    ElementsAtMost(front);
    if last in front {
      assert Elements(q) == Elements(front);
    } else {
      assert !NoRepeats(front);
      RepeatsCountLess(front);
    }
  }

  /** The flags a sender gives up to 65536 messages in a row are distinct. */
  lemma SenderFlagsDistinct(c: Uint16, i: nat, j: nat)
    requires i < j < i + UINT16
    ensures (c + 1 + i) % UINT16 != (c + 1 + j) % UINT16
  {
    var p, q := (c + 1 + i) / UINT16, (c + 1 + j) / UINT16;
    assert c + 1 + i == UINT16 * p + (c + 1 + i) % UINT16 && c + 1 + j == UINT16 * q + (c + 1 + j) % UINT16;
  }

  /** An empty message has no slices: it is never delivered. */
  lemma EmptyMessageHasNoSlices(msg: seq<Byte>)
    ensures SliceCount(|msg|) == 0 <==> msg == []
  {
  }
}
