/** Where everything stands in a packet, byte by byte, said without the writer or the reader. */
module Layout {
  import opened Bytes
  import opened Common
  import opened Wire

  // ---------------------------------------------------------------- numbers and flags

  /** `v` halved `k` times. */
  function Halved(v: nat, k: nat): nat { if k == 0 then v else Halved(v / 2, k - 1) }

  lemma {:induction false} HalvedAdds(v: nat, j: nat, k: nat)
    ensures Halved(v, j + k) == Halved(Halved(v, j), k)
  {
    if j > 0 { HalvedAdds(v / 2, j - 1, k); }
  }

  lemma {:induction false} OneHalf(v: nat, k: nat)
    ensures Halved(v, k + 1) == Halved(v / 2, k)
  {
  }

  lemma HalfOfParts(v: nat)
    ensures v / 2 / 2 == v / 4 && v / 4 / 2 == v / 8 && v / 8 / 2 == v / 16
  {
  }

  lemma {:induction false} FourHalves(v: nat)
    ensures Halved(v, 4) == v / 16
  {
    HalfOfParts(v);
    OneHalf(v, 3);
    OneHalf(v / 2, 2);
    OneHalf(v / 4, 1);
    OneHalf(v / 8, 0);
  }

  lemma {:induction false} EightHalves(v: nat)
    ensures Halved(v, 8) == v / 256
  {
    FourHalves(v);
    FourHalves(v / 16);
    HalvedAdds(v, 4, 4);
  }

  /** Byte `i` of a number, low byte first: what is left of it after eight halvings a byte. */
  lemma {:induction false} ByteAt(v: nat, n: nat, i: nat)
    requires i < n
    ensures ToBytes(v, n)[i] == Halved(v, 8 * i) % 256
  {
    if i > 0 {
      ByteAt(v / 256, n - 1, i - 1);
      EightHalves(v);
      HalvedAdds(v, 8, 8 * (i - 1));
    }
  }

  lemma {:induction false} BitAt(b: seq<bool>, k: nat)
    requires k < |b|
    ensures Halved(BitsValue(b), k) % 2 == 1 <==> b[k]
  {
    LowestBit(b[0], BitsValue(b[1..]));
    if k > 0 {
      OneHalf(BitsValue(b), k - 1);
      BitAt(b[1..], k - 1);
    }
  }

  lemma LowestBit(b: bool, v: nat)
    ensures var x := (if b then 1 else 0) + 2 * v; x / 2 == v && (x % 2 == 1 <==> b)
  {
  }

  lemma {:induction false} LowBit(x: nat, y: nat, r: nat, n: nat, k: nat)
    requires x == Power2(n) * y + r && k < n
    ensures Halved(x, k) % 2 == Halved(r, k) % 2
  {
    var m := Power2(n - 1) * y;
    assert x == 2 * m + r;
    if k > 0 {
      assert x / 2 == m + r / 2;
      LowBit(x / 2, y, r / 2, n - 1, k - 1);
    }
  }

  /** Flag `k` is bit `k % 8` of byte `k / 8` of the packet. */
  lemma {:induction false} FlagAt(flag: Word, k: nat)
    requires k < 32
    ensures Halved(ToBytes(BitsValue(flag), 4)[k / 8], k % 8) % 2 == 1 <==> flag[k]
  {
    var v := BitsValue(flag);
    var x := Halved(v, 8 * (k / 8));
    ByteAt(v, 4, k / 8);
    BitAt(flag, k);
    HalvedAdds(v, 8 * (k / 8), k % 8);
    assert Power2(8) == 256 by { Power2Is256(1); }
    LowBit(x, x / 256, x % 256, 8, k % 8);
  }

  // ---------------------------------------------------------------- where the fields stand

  /** The number of width `w` at `at`. */
  predicate Holds(b: seq<Byte>, at: nat, v: nat, w: Width) { at + w.Size() <= |b| && b[at..at + w.Size()] == Num(v, w) }

  function TimeAt(h: Header): nat { 4 + if h.flag[WITH_ID] then 2 else 0 }

  function OrderlyAt(h: Header): nat { TimeAt(h) + if h.flag[WITH_TIME] then 8 else 0 }

  function ReliableAt(h: Header): nat { OrderlyAt(h) + AckSize(h.flag, WITH_ORDERLY_ACK, ORDERLY_ACK_RANGE, h.orderly) }

  function BodyLenAt(h: Header): nat { ReliableAt(h) + AckSize(h.flag, WITH_RELIABLE_ACK, RELIABLE_ACK_RANGE, h.reliable) }

  function BodyAt(h: Header): nat { BodyLenAt(h) + if h.flag[WITH_BODY] then 2 else 0 }

  /** An ack list at `at`: how many, the ids or only the first, and the times. */
  ghost predicate HoldsAcks(b: seq<Byte>, at: nat, flag: Word, range: nat, a: Acks)
    requires range < 32
  {
    && Holds(b, at, |a.ids|, W16)
    && (if flag[range] then a.ids != [] && Holds(b, at + 2, a.ids[0], W16)
        else forall i :: 0 <= i < |a.ids| ==> Holds(b, at + 2 + 2 * i, a.ids[i], W16))
    && (flag[WITH_TIME] ==> forall i :: 0 <= i < |a.times| ==> Holds(b, at + ListSize(flag[range], |a.ids|) + 8 * i, a.times[i], W64))
  }

  lemma HoldsLater(a: seq<Byte>, b: seq<Byte>, at: nat, v: nat, w: Width)
    requires Holds(b, at, v, w)
    ensures Holds(a + b, |a| + at, v, w)
  {
    assert (a + b)[|a| + at..|a| + at + w.Size()] == b[at..at + w.Size()];
  }

  lemma HoldsEarlier(a: seq<Byte>, b: seq<Byte>, at: nat, v: nat, w: Width)
    requires Holds(a, at, v, w)
    ensures Holds(a + b, at, v, w)
  {
    assert (a + b)[at..at + w.Size()] == a[at..at + w.Size()];
  }

  lemma {:induction false} ManyAt(vs: seq<nat>, w: Width, i: nat)
    requires i < |vs|
    ensures Holds(Many(vs, w), w.Size() * i, vs[i], w)
  {
    var rest := Many(vs[1..], w);
    if i == 0 {
      assert Num(vs[0], w)[0..w.Size()] == Num(vs[0], w);
      HoldsEarlier(Num(vs[0], w), rest, 0, vs[0], w);
    } else {
      ManyAt(vs[1..], w, i - 1);
      HoldsLater(Num(vs[0], w), rest, w.Size() * (i - 1), vs[i], w);
      assert w.Size() + w.Size() * (i - 1) == w.Size() * i;
    }
  }

  lemma NumAt(v: nat, w: Width)
    ensures Holds(Num(v, w), 0, v, w)
  {
    assert Num(v, w)[0..w.Size()] == Num(v, w);
  }

  /** The ids of a list, behind their number. */
  lemma {:induction false} ListAt(flag: Word, range: nat, ids: seq<nat>)
    requires range < 32 && ids != [] && |ids| < UINT16
    ensures var b := ListBytes(flag, range, ids);
            && |b| == ListSize(flag[range], |ids|) && Holds(b, 0, |ids|, W16)
            && (if flag[range] then Holds(b, 2, ids[0], W16) else forall i :: 0 <= i < |ids| ==> Holds(b, 2 + 2 * i, ids[i], W16))
  {
    var front, rest := Num(|ids|, W16), IdBytes(flag, range, ids);
    ListSizeIsExact(flag, range, ids);
    NumAt(|ids|, W16);
    HoldsEarlier(front, rest, 0, |ids|, W16);
    if flag[range] {
      NumAt(ids[0], W16);
      HoldsLater(front, rest, 0, ids[0], W16);
    } else {
      forall i | 0 <= i < |ids| ensures Holds(front + rest, 2 + 2 * i, ids[i], W16) {
        ManyAt(ids, W16, i);
        HoldsLater(front, rest, 2 * i, ids[i], W16);
      }
    }
  }

  lemma {:induction false} AcksAt(flag: Word, present: nat, range: nat, a: Acks)
    requires present < 32 && range < 32 && AcksFit(flag, present, range, a) && flag[present]
    ensures HoldsAcks(AckBytes(flag, present, range, a), 0, flag, range, a)
  {
    AllSent(a);
    ListAndTimesAt(flag, range, a);
  }

  lemma {:induction false} ListAndTimesAt(flag: Word, range: nat, a: Acks)
    requires range < 32 && a.ids != [] && |a.ids| < UINT16
    ensures HoldsAcks(ListBytes(flag, range, a.ids) + TimeBytes(flag, a.times), 0, flag, range, a)
  {
    var front, rest := ListBytes(flag, range, a.ids), TimeBytes(flag, a.times);
    IdsAt(flag, range, a.ids, rest);
    if flag[WITH_TIME] { TimesAt(front, a.times); }
  }

  lemma AllSent(a: Acks)
    requires |a.ids| < UINT16 && |a.times| <= |a.ids|
    ensures Cut(a.ids) == a.ids && TimesSent(a) == a.times
  {
    assert a.times[..|a.times|] == a.times;
  }

  lemma {:induction false} IdsAt(flag: Word, range: nat, ids: seq<nat>, rest: seq<Byte>)
    requires range < 32 && ids != [] && |ids| < UINT16
    ensures var b := ListBytes(flag, range, ids) + rest;
            && |ListBytes(flag, range, ids)| == ListSize(flag[range], |ids|) && Holds(b, 0, |ids|, W16)
            && (if flag[range] then Holds(b, 2, ids[0], W16) else forall i :: 0 <= i < |ids| ==> Holds(b, 2 + 2 * i, ids[i], W16))
  {
    var front := ListBytes(flag, range, ids);
    ListAt(flag, range, ids);
    HoldsEarlier(front, rest, 0, |ids|, W16);
    if flag[range] {
      HoldsEarlier(front, rest, 2, ids[0], W16);
    } else {
      forall i | 0 <= i < |ids| ensures Holds(front + rest, 2 + 2 * i, ids[i], W16) {
        HoldsEarlier(front, rest, 2 + 2 * i, ids[i], W16);
      }
    }
  }

  lemma {:induction false} TimesAt(front: seq<Byte>, times: seq<nat>)
    ensures forall i :: 0 <= i < |times| ==> Holds(front + Many(times, W64), |front| + 8 * i, times[i], W64)
  {
    forall i | 0 <= i < |times| ensures Holds(front + Many(times, W64), |front| + 8 * i, times[i], W64) {
      ManyAt(times, W64, i);
      HoldsLater(front, Many(times, W64), 8 * i, times[i], W64);
    }
  }

  lemma HoldsAcksLater(a: seq<Byte>, b: seq<Byte>, at: nat, flag: Word, range: nat, acks: Acks)
    requires range < 32 && HoldsAcks(b, at, flag, range, acks)
    ensures HoldsAcks(a + b, |a| + at, flag, range, acks)
  {
    HoldsLater(a, b, at, |acks.ids|, W16);
    if flag[range] {
      HoldsLater(a, b, at + 2, acks.ids[0], W16);
    } else {
      forall i | 0 <= i < |acks.ids| ensures Holds(a + b, |a| + at + 2 + 2 * i, acks.ids[i], W16) {
        HoldsLater(a, b, at + 2 + 2 * i, acks.ids[i], W16);
      }
    }
    if flag[WITH_TIME] {
      var front := ListSize(flag[range], |acks.ids|);
      forall i | 0 <= i < |acks.times| ensures Holds(a + b, |a| + at + front + 8 * i, acks.times[i], W64) {
        HoldsLater(a, b, at + front + 8 * i, acks.times[i], W64);
      }
    }
  }

  lemma HoldsAcksEarlier(a: seq<Byte>, b: seq<Byte>, at: nat, flag: Word, range: nat, acks: Acks)
    requires range < 32 && HoldsAcks(a, at, flag, range, acks)
    ensures HoldsAcks(a + b, at, flag, range, acks)
  {
    HoldsEarlier(a, b, at, |acks.ids|, W16);
    if flag[range] {
      HoldsEarlier(a, b, at + 2, acks.ids[0], W16);
    } else {
      forall i | 0 <= i < |acks.ids| ensures Holds(a + b, at + 2 + 2 * i, acks.ids[i], W16) {
        HoldsEarlier(a, b, at + 2 + 2 * i, acks.ids[i], W16);
      }
    }
    if flag[WITH_TIME] {
      var front := ListSize(flag[range], |acks.ids|);
      forall i | 0 <= i < |acks.times| ensures Holds(a + b, at + front + 8 * i, acks.times[i], W64) {
        HoldsEarlier(a, b, at + front + 8 * i, acks.times[i], W64);
      }
    }
  }

  // ---------------------------------------------------------------- the packet

  /** The bytes of the header up to each of its parts. */
  lemma {:induction false} PartsOf(h: Header, body: seq<Byte>)
    requires WellFormed(h, body)
    ensures var f := h.flag;
            var id, time, len := Flagged(f[WITH_ID], h.id, W16), Flagged(f[WITH_TIME], h.sendTime, W64), Flagged(f[WITH_BODY], h.bodyLen, W16);
            var a := Num(BitsValue(f), W32);
            && HeadBytes(h) + body == a + (id + (time + (OrderlyBytes(h) + (ReliableBytes(h) + (len + body)))))
            && |a| == 4 && |id| == TimeAt(h) - 4 && |time| == OrderlyAt(h) - TimeAt(h)
            && |OrderlyBytes(h)| == ReliableAt(h) - OrderlyAt(h) && |ReliableBytes(h)| == BodyLenAt(h) - ReliableAt(h)
            && |len| == BodyAt(h) - BodyLenAt(h)
  {
    var f := h.flag;
    Regroup(Num(BitsValue(f), W32), Flagged(f[WITH_ID], h.id, W16), Flagged(f[WITH_TIME], h.sendTime, W64),
            OrderlyBytes(h), ReliableBytes(h), Flagged(f[WITH_BODY], h.bodyLen, W16), body);
    AckSizeIsExact(f, WITH_ORDERLY_ACK, ORDERLY_ACK_RANGE, h.orderly);
    AckSizeIsExact(f, WITH_RELIABLE_ACK, RELIABLE_ACK_RANGE, h.reliable);
  }

  /** A part of a packet: the number at its start stands behind what comes before. */
  lemma PartAt(before: seq<Byte>, v: nat, w: Width, after: seq<Byte>)
    ensures Holds(before + (Num(v, w) + after), |before|, v, w)
  {
    NumAt(v, w);
    HoldsEarlier(Num(v, w), after, 0, v, w);
    HoldsLater(before, Num(v, w) + after, 0, v, w);
  }

  lemma AcksPartAt(before: seq<Byte>, flag: Word, present: nat, range: nat, a: Acks, after: seq<Byte>)
    requires present < 32 && range < 32 && AcksFit(flag, present, range, a) && flag[present]
    ensures HoldsAcks(before + (AckBytes(flag, present, range, a) + after), |before|, flag, range, a)
  {
    var b := AckBytes(flag, present, range, a);
    AcksAt(flag, present, range, a);
    HoldsAcksEarlier(b, after, 0, flag, range, a);
    HoldsAcksLater(before, b + after, 0, flag, range, a);
  }

  /** Where the flag word, the id and the send time stand. */
  lemma {:induction false} FrontLayout(h: Header, body: seq<Byte>)
    requires WellFormed(h, body)
    ensures var b := Packet(h, body);
            && Holds(b, 0, BitsValue(h.flag), W32)
            && (h.flag[WITH_ID] ==> Holds(b, 4, h.id, W16))
            && (h.flag[WITH_TIME] ==> Holds(b, TimeAt(h), h.sendTime, W64))
  {
    SentIffEstimateFits(h, body);
    PartsOf(h, body);
    var f := h.flag;
    var a, id, time := Num(BitsValue(f), W32), Flagged(f[WITH_ID], h.id, W16), Flagged(f[WITH_TIME], h.sendTime, W64);
    var rest := OrderlyBytes(h) + (ReliableBytes(h) + (Flagged(f[WITH_BODY], h.bodyLen, W16) + body));
    PartAt([], BitsValue(f), W32, id + (time + rest));
    assert [] + (a + (id + (time + rest))) == a + (id + (time + rest));
    if f[WITH_ID] { PartAt(a, h.id, W16, time + rest); }
    if f[WITH_TIME] {
      PartAt(a + id, h.sendTime, W64, rest);
      Assoc(a, id, time + rest);
    }
  }

  /** The packet around the orderly list, and around the reliable one. */
  lemma {:induction false} AroundLists(h: Header, body: seq<Byte>) returns (before: seq<Byte>, last: seq<Byte>)
    requires WellFormed(h, body)
    ensures Packet(h, body) == before + (OrderlyBytes(h) + (ReliableBytes(h) + last)) && |before| == OrderlyAt(h)
    ensures Packet(h, body) == (before + OrderlyBytes(h)) + (ReliableBytes(h) + last) && |before + OrderlyBytes(h)| == ReliableAt(h)
  {
    SentIffEstimateFits(h, body);
    PartsOf(h, body);
    before, last := FrontBytes(h), Flagged(h.flag[WITH_BODY], h.bodyLen, W16) + body;
    FrontFirst(h, OrderlyBytes(h) + (ReliableBytes(h) + last));
    Assoc(before, OrderlyBytes(h), ReliableBytes(h) + last);
  }

  /** Where the orderly acks stand. */
  lemma {:induction false} OrderlyLayout(h: Header, body: seq<Byte>)
    requires WellFormed(h, body) && h.flag[WITH_ORDERLY_ACK]
    ensures HoldsAcks(Packet(h, body), OrderlyAt(h), h.flag, ORDERLY_ACK_RANGE, h.orderly)
  {
    var before, last := AroundLists(h, body);
    AcksPartAt(before, h.flag, WITH_ORDERLY_ACK, ORDERLY_ACK_RANGE, h.orderly, ReliableBytes(h) + last);
  }

  /** Where the reliable acks stand: behind the orderly ones. */
  lemma {:induction false} ReliableLayout(h: Header, body: seq<Byte>)
    requires WellFormed(h, body) && h.flag[WITH_RELIABLE_ACK]
    ensures HoldsAcks(Packet(h, body), ReliableAt(h), h.flag, RELIABLE_ACK_RANGE, h.reliable)
  {
    var before, last := AroundLists(h, body);
    AcksPartAt(before + OrderlyBytes(h), h.flag, WITH_RELIABLE_ACK, RELIABLE_ACK_RANGE, h.reliable, last);
  }

  function FrontBytes(h: Header): seq<Byte> {
    Num(BitsValue(h.flag), W32) + (Flagged(h.flag[WITH_ID], h.id, W16) + Flagged(h.flag[WITH_TIME], h.sendTime, W64))
  }

  lemma FrontFirst(h: Header, rest: seq<Byte>)
    ensures Num(BitsValue(h.flag), W32) + (Flagged(h.flag[WITH_ID], h.id, W16) + (Flagged(h.flag[WITH_TIME], h.sendTime, W64) + rest))
            == FrontBytes(h) + rest
    ensures |FrontBytes(h)| == OrderlyAt(h)
  {
    var a, id, time := Num(BitsValue(h.flag), W32), Flagged(h.flag[WITH_ID], h.id, W16), Flagged(h.flag[WITH_TIME], h.sendTime, W64);
    Assoc(id, time, rest);
    Assoc(a, id + time, rest);
  }

  /** Where the body length and the body stand; the body is the rest. */
  lemma {:induction false} BodyLayout(h: Header, body: seq<Byte>)
    requires WellFormed(h, body)
    ensures var b := Packet(h, body);
            && (h.flag[WITH_BODY] ==> Holds(b, BodyLenAt(h), |body|, W16))
            && BodyAt(h) <= |b| && b[BodyAt(h)..] == body
  {
    SentIffEstimateFits(h, body);
    PartsOf(h, body);
    var len := Flagged(h.flag[WITH_BODY], h.bodyLen, W16);
    var front := FrontBytes(h) + (OrderlyBytes(h) + ReliableBytes(h));
    FrontFirst(h, OrderlyBytes(h) + (ReliableBytes(h) + (len + body)));
    Assoc(OrderlyBytes(h), ReliableBytes(h), len + body);
    Assoc(FrontBytes(h), OrderlyBytes(h) + ReliableBytes(h), len + body);
    if h.flag[WITH_BODY] { PartAt(front, h.bodyLen, W16, body); }
    Assoc(front, len, body);
    assert ((front + len) + body)[|front + len|..] == body;
  }
}
