/** What becomes of a packet that is cut short: every part of a message read from fewer bytes is
    read alike or not at all, so a message cut anywhere behind its flag word is refused, and the
    header still holds that flag word. */
module Truncation {
  import opened Bytes
  import opened Common
  import opened Wire

  /** All but the last `lost` bytes. */
  function Short(b: seq<Byte>, lost: nat): seq<Byte>
    requires lost <= |b|
  {
    b[..|b| - lost]
  }

  /** What a read gives when its input loses its last `lost` bytes. */
  function Shortened<T>(r: Option<(T, seq<Byte>)>, lost: nat): Option<(T, seq<Byte>)> {
    if r.None? || |r.value.1| < lost then None else Some((r.value.0, Short(r.value.1, lost)))
  }

  lemma ShortNum(b: seq<Byte>, w: Width, lost: nat)
    requires lost <= |b|
    ensures TakeNum(Short(b, lost), w) == Shortened(TakeNum(b, w), lost)
  {
    if |b| - lost >= w.Size() {
      assert Short(b, lost)[..w.Size()] == b[..w.Size()];
      assert Short(b, lost)[w.Size()..] == Short(b[w.Size()..], lost);
    }
  }

  lemma ShortFlagged(flagged: bool, stale: nat, b: seq<Byte>, w: Width, lost: nat)
    requires lost <= |b|
    ensures TakeFlagged(flagged, stale, Short(b, lost), w) == Shortened(TakeFlagged(flagged, stale, b, w), lost)
  {
    ShortNum(b, w, lost);
  }

  /** A read never leaves more than it was given. */
  lemma {:induction false} ManyLeavesLess(b: seq<Byte>, w: Width, k: nat)
    ensures TakeMany(b, w, k).Some? ==> |TakeMany(b, w, k).value.1| <= |b|
  {
    if k > 0 && TakeNum(b, w).Some? { ManyLeavesLess(TakeNum(b, w).value.1, w, k - 1); }
  }

  lemma {:induction false} ShortMany(b: seq<Byte>, w: Width, k: nat, lost: nat)
    requires lost <= |b|
    ensures TakeMany(Short(b, lost), w, k) == Shortened(TakeMany(b, w, k), lost)
  {
    if k > 0 {
      ShortNum(b, w, lost);
      var v := TakeNum(b, w);
      if v.Some? {
        if |v.value.1| >= lost { ShortMany(v.value.1, w, k - 1, lost); } else { ManyLeavesLess(v.value.1, w, k - 1); }
      }
    }
  }

  lemma ShortIds(flag: Word, range: nat, b: seq<Byte>, len: nat, lost: nat)
    requires range < 32 && lost <= |b|
    ensures TakeIds(flag, range, Short(b, lost), len) == Shortened(TakeIds(flag, range, b, len), lost)
    ensures TakeIds(flag, range, b, len).Some? ==> |TakeIds(flag, range, b, len).value.1| <= |b|
  {
    ShortNum(b, W16, lost);
    ShortMany(b, W16, len, lost);
    ManyLeavesLess(b, W16, len);
  }

  lemma ShortTimes(flag: Word, b: seq<Byte>, len: nat, lost: nat)
    requires lost <= |b|
    ensures TakeTimes(flag, Short(b, lost), len) == Shortened(TakeTimes(flag, b, len), lost)
  {
    ShortMany(b, W64, len, lost);
  }

  lemma TimesLeaveLess(flag: Word, b: seq<Byte>, len: nat)
    ensures TakeTimes(flag, b, len).Some? ==> |TakeTimes(flag, b, len).value.1| <= |b|
  {
    ManyLeavesLess(b, W64, len);
  }

  lemma {:induction false} AcksLeaveLess(flag: Word, present: nat, range: nat, b: seq<Byte>)
    requires present < 32 && range < 32
    ensures TakeAcks(flag, present, range, b).Some? ==> |TakeAcks(flag, present, range, b).value.1| <= |b|
  {
    var len := TakeNum(b, W16);
    if flag[present] && len.Some? {
      ShortIds(flag, range, len.value.1, len.value.0, 0);
      var ids := TakeIds(flag, range, len.value.1, len.value.0);
      if ids.Some? { TimesLeaveLess(flag, ids.value.1, len.value.0); }
    }
  }

  lemma {:induction false} ShortRest(flag: Word, range: nat, b: seq<Byte>, len: nat, lost: nat)
    requires range < 32 && lost <= |b|
    ensures TakeRest(flag, range, Short(b, lost), len) == Shortened(TakeRest(flag, range, b, len), lost)
  {
    ShortIds(flag, range, b, len, lost);
    var ids := TakeIds(flag, range, b, len);
    if ids.Some? {
      if |ids.value.1| >= lost { ShortTimes(flag, ids.value.1, len, lost); } else { TimesLeaveLess(flag, ids.value.1, len); }
    }
  }

  lemma {:induction false} RestLeavesLess(flag: Word, range: nat, b: seq<Byte>, len: nat)
    requires range < 32
    ensures TakeRest(flag, range, b, len).Some? ==> |TakeRest(flag, range, b, len).value.1| <= |b|
  {
    ShortIds(flag, range, b, len, 0);
    var ids := TakeIds(flag, range, b, len);
    if ids.Some? { TimesLeaveLess(flag, ids.value.1, len); }
  }

  /** A list of acks from fewer bytes: the same list, or none. */
  lemma {:induction false} ShortAcks(flag: Word, present: nat, range: nat, b: seq<Byte>, lost: nat)
    requires present < 32 && range < 32 && lost <= |b|
    ensures TakeAcks(flag, present, range, Short(b, lost)) == Shortened(TakeAcks(flag, present, range, b), lost)
  {
    ShortNum(b, W16, lost);
    var len := TakeNum(b, W16);
    if flag[present] && len.Some? {
      if |len.value.1| >= lost {
        ShortRest(flag, range, len.value.1, len.value.0, lost);
      } else {
        RestLeavesLess(flag, range, len.value.1, len.value.0);
      }
    }
  }

  lemma {:induction false} ShortLists(flag: Word, b: seq<Byte>, lost: nat)
    requires lost <= |b|
    ensures var r := TakeLists(flag, b);
            && TakeLists(flag, Short(b, lost))
               == (if r.None? || |r.value.2| < lost then None else Some((r.value.0, r.value.1, Short(r.value.2, lost))))
            && (r.Some? ==> |r.value.2| <= |b|)
  {
    ShortAcks(flag, WITH_ORDERLY_ACK, ORDERLY_ACK_RANGE, b, lost);
    AcksLeaveLess(flag, WITH_ORDERLY_ACK, ORDERLY_ACK_RANGE, b);
    var orderly := TakeAcks(flag, WITH_ORDERLY_ACK, ORDERLY_ACK_RANGE, b);
    if orderly.Some? {
      AcksLeaveLess(flag, WITH_RELIABLE_ACK, RELIABLE_ACK_RANGE, orderly.value.1);
      if |orderly.value.1| >= lost { ShortAcks(flag, WITH_RELIABLE_ACK, RELIABLE_ACK_RANGE, orderly.value.1, lost); }
    }
  }

  lemma {:induction false} ShortFront(flag: Word, stale: Header, b: seq<Byte>, lost: nat)
    requires lost <= |b|
    ensures var r := TakeFront(flag, stale, b);
            && TakeFront(flag, stale, Short(b, lost))
               == (if r.None? || |r.value.2| < lost then None else Some((r.value.0, r.value.1, Short(r.value.2, lost))))
            && (r.Some? ==> |r.value.2| <= |b|)
  {
    ShortFlagged(flag[WITH_ID], stale.id, b, W16, lost);
    var id := TakeFlagged(flag[WITH_ID], stale.id, b, W16);
    if id.Some? && |id.value.1| >= lost { ShortFlagged(flag[WITH_TIME], stale.sendTime, id.value.1, W64, lost); }
  }

  lemma {:induction false} ShortBack(flag: Word, stale: Header, b: seq<Byte>, lost: nat)
    requires lost <= |b|
    ensures var r := TakeBack(flag, stale, b);
            && TakeBack(flag, stale, Short(b, lost))
               == (if r.None? || |r.value.3| < lost then None
                   else Some((r.value.0, r.value.1, r.value.2, Short(r.value.3, lost))))
            && (r.Some? ==> |r.value.3| <= |b|)
  {
    ShortLists(flag, b, lost);
    var acks := TakeLists(flag, b);
    if acks.Some? && |acks.value.2| >= lost { ShortFlagged(flag[WITH_BODY], stale.bodyLen, acks.value.2, W16, lost); }
  }

  /** A header from fewer bytes, its flag word among them: the same header, or none. */
  lemma {:induction false} ShortHead(stale: Header, b: seq<Byte>, lost: nat)
    requires lost + 4 <= |b|
    ensures TakeFlag(Short(b, lost)).0 == TakeFlag(b).0
    ensures TakeHead(stale, Short(b, lost)) == Shortened(TakeHead(stale, b), lost)
  {
    ShortNum(b, W32, lost);
    var flag, rest := TakeFlag(b).0, TakeFlag(b).1;
    assert TakeFlag(Short(b, lost)) == (flag, Short(rest, lost));
    ShortFront(flag, stale, rest, lost);
    var front := TakeFront(flag, stale, rest);
    if front.Some? {
      if |front.value.2| >= lost {
        ShortBack(flag, stale, front.value.2, lost);
      } else {
        ShortBack(flag, stale, front.value.2, 0);
      }
    }
  }

  /** The flag word of the header is the packet's, whether or not the read fails. */
  lemma FlagIsThePackets(stale: Header, b: seq<Byte>)
    ensures HeadRead(stale, b).flag == TakeFlag(b).0
    ensures TakeHead(stale, b).Some? ==> HeadRead(stale, b) == TakeHead(stale, b).value.0
  {
  }

  // ---------------------------------------------------------------- what is left in the header

  /** Nothing of a list, its ids alone, or all of it. */
  predicate PartOf(a: Acks, whole: Acks) { a == NO_ACKS || a == Acks(whole.ids, []) || a == whole }

  /** Every field is the whole header's or the old one's. */
  predicate PartlyRead(stale: Header, h: Header, whole: Header) {
    && h.flag == whole.flag
    && h.id in {stale.id, whole.id} && h.sendTime in {stale.sendTime, whole.sendTime} && h.bodyLen in {stale.bodyLen, whole.bodyLen}
    && PartOf(h.orderly, whole.orderly) && PartOf(h.reliable, whole.reliable)
  }

  lemma {:induction false} ShortRestRead(flag: Word, range: nat, b: seq<Byte>, len: nat, lost: nat)
    requires range < 32 && lost <= |b|
    ensures PartOf(RestRead(flag, range, Short(b, lost), len), RestRead(flag, range, b, len))
  {
    ShortIds(flag, range, b, len, lost);
    var ids := TakeIds(flag, range, b, len);
    if ids.Some? && |ids.value.1| >= lost { ShortTimes(flag, ids.value.1, len, lost); }
  }

  lemma {:induction false} ShortAcksRead(flag: Word, present: nat, range: nat, b: seq<Byte>, lost: nat)
    requires present < 32 && range < 32 && lost <= |b|
    ensures PartOf(AcksRead(flag, present, range, Short(b, lost)), AcksRead(flag, present, range, b))
  {
    ShortNum(b, W16, lost);
    var len := TakeNum(b, W16);
    if flag[present] && len.Some? && |len.value.1| >= lost { ShortRestRead(flag, range, len.value.1, len.value.0, lost); }
  }

  lemma {:induction false} ShortListsRead(h: Header, b: seq<Byte>, lost: nat)
    requires lost <= |b| && h.orderly == NO_ACKS && h.reliable == NO_ACKS
    ensures var r, whole := ListsRead(h, Short(b, lost)), ListsRead(h, b);
            && PartOf(r.orderly, whole.orderly) && PartOf(r.reliable, whole.reliable)
  {
    ShortAcksRead(h.flag, WITH_ORDERLY_ACK, ORDERLY_ACK_RANGE, b, lost);
    ShortAcks(h.flag, WITH_ORDERLY_ACK, ORDERLY_ACK_RANGE, b, lost);
    var orderly := TakeAcks(h.flag, WITH_ORDERLY_ACK, ORDERLY_ACK_RANGE, b);
    if orderly.Some? && |orderly.value.1| >= lost {
      ShortAcksRead(h.flag, WITH_RELIABLE_ACK, RELIABLE_ACK_RANGE, orderly.value.1, lost);
    }
  }

  lemma {:induction false} ShortBackRead(h: Header, b: seq<Byte>, lost: nat)
    requires lost <= |b| && h.orderly == NO_ACKS && h.reliable == NO_ACKS
    ensures PartlyRead(h, BackRead(h, Short(b, lost)), BackRead(h, b))
  {
    ShortListsRead(h, b, lost);
    ShortLists(h.flag, b, lost);
    var acks := TakeLists(h.flag, b);
    if acks.Some? && |acks.value.2| >= lost { ShortFlagged(h.flag[WITH_BODY], h.bodyLen, acks.value.2, W16, lost); }
  }

  lemma {:induction false} ShortFrontRead(h: Header, b: seq<Byte>, lost: nat)
    requires lost <= |b|
    ensures var r, whole := FrontRead(h, Short(b, lost)), FrontRead(h, b);
            && r.id in {h.id, whole.id} && r.sendTime in {h.sendTime, whole.sendTime}
            && r == h.(id := r.id, sendTime := r.sendTime)
            && (TakeFront(h.flag, h, Short(b, lost)).Some? ==> r == whole)
  {
    ShortFlagged(h.flag[WITH_ID], h.id, b, W16, lost);
    var id := TakeFlagged(h.flag[WITH_ID], h.id, b, W16);
    if id.Some? && |id.value.1| >= lost { ShortFlagged(h.flag[WITH_TIME], h.sendTime, id.value.1, W64, lost); }
  }

  lemma BackReadKeepsFront(h: Header, b: seq<Byte>)
    ensures BackRead(h, b).flag == h.flag && BackRead(h, b).id == h.id && BackRead(h, b).sendTime == h.sendTime
  {
  }

  /** The header fewer bytes leave in a cleared one holds, field by field, what the whole input
      gives or nothing: no number is ever read wrong. */
  lemma {:induction false} ShortHeadRead(stale: Header, b: seq<Byte>, lost: nat)
    requires lost + 4 <= |b| && stale.orderly == NO_ACKS && stale.reliable == NO_ACKS
    ensures PartlyRead(stale, HeadRead(stale, Short(b, lost)), HeadRead(stale, b))
  {
    ShortNum(b, W32, lost);
    var h, rest := stale.(flag := TakeFlag(b).0), TakeFlag(b).1;
    assert TakeFlag(Short(b, lost)) == (h.flag, Short(rest, lost));
    ShortFrontRead(h, rest, lost);
    ShortFront(h.flag, h, rest, lost);
    var front := TakeFront(h.flag, h, rest);
    if front.Some? {
      BackReadKeepsFront(FrontRead(h, rest), front.value.2);
      if |front.value.2| >= lost { ShortBackRead(FrontRead(h, rest), front.value.2, lost); }
    }
  }

  // ---------------------------------------------------------------- a message cut short

  lemma {:induction false} CutBehindFlags(stale: Header, h: Header, body: seq<Byte>, n: nat)
    requires WellFormed(h, body) && Cleared(stale) && 4 <= n < |HeadBytes(h) + body|
    ensures var packet := (HeadBytes(h) + body)[..n];
            Deserialized(stale, packet).None? && PartlyRead(stale, HeadRead(stale, packet), Over(stale, h))
  {
    var whole := HeadBytes(h) + body;
    var lost := |whole| - n;
    assert whole[..n] == Short(whole, lost);
    TakeHeadOf(stale, h, body);
    FlagIsThePackets(stale, whole);
    ShortHead(stale, whole, lost);
    ShortHeadRead(stale, whole, lost);
  }

  lemma CutInsideFlags(stale: Header, packet: seq<Byte>)
    requires Cleared(stale) && |packet| < 4
    ensures Received(stale, packet) == Some((stale, [])) && HeadRead(stale, Loaded(packet)) == stale
  {
    EmptyMessageIff(stale, packet);
    FlagIsThePackets(stale, Loaded(packet));
  }

  /** A message that was cut short behind its flag word is refused wherever it was cut; the header
      it leaves has the flags of the whole message, and its other fields hold what was sent or
      nothing.  Cut inside the flag word it is taken for an empty message. */
  lemma {:induction false} CutMessage(stale: Header, h: Header, body: seq<Byte>, n: nat)
    requires WellFormed(h, body) && Cleared(stale) && EstimateSize(h) <= MTU && n < |Sent(h, body)|
    ensures var packet := Sent(h, body)[..n];
            && (Received(stale, packet).None? <==> n >= 4)
            && (n >= 4 ==> PartlyRead(stale, HeadRead(stale, Loaded(packet)), Over(stale, h)))
            && (n < 4 ==> Received(stale, packet) == Some((stale, [])) && HeadRead(stale, Loaded(packet)) == stale)
  {
    SentIffEstimateFits(h, body);
    var whole := HeadBytes(h) + body;
    assert Sent(h, body) == whole;
    LoadedWhole(whole[..n]);
    if n < 4 { CutInsideFlags(stale, whole[..n]); } else { CutBehindFlags(stale, h, body, n); }
  }

  // ---------------------------------------------------------------- the flag word alone

  lemma {:induction false} NothingInFront(h: Header)
    ensures FrontRead(h, []) == h
    ensures TakeFront(h.flag, h, []) == if h.flag[WITH_ID] || h.flag[WITH_TIME] then None else Some((h.id, h.sendTime, []))
  {
  }

  lemma {:induction false} NothingBehind(h: Header)
    ensures BackRead(h, []) == h
    ensures TakeBack(h.flag, h, []).None? <==> h.flag[WITH_ORDERLY_ACK] || h.flag[WITH_RELIABLE_ACK] || h.flag[WITH_BODY]
  {
  }

  /** The first four bytes of a message are enough for its flags: the header that is left is the
      old one under them, and the read fails exactly when the flags announce a field. */
  lemma {:induction false} FlagWordAlone(stale: Header, flag: Word)
    ensures HeadRead(stale, Num(BitsValue(flag), W32)) == stale.(flag := flag)
    ensures TakeHead(stale, Num(BitsValue(flag), W32)).None?
            <==> flag[WITH_ID] || flag[WITH_TIME] || flag[WITH_ORDERLY_ACK] || flag[WITH_RELIABLE_ACK] || flag[WITH_BODY]
  {
    var b, h := Num(BitsValue(flag), W32), stale.(flag := flag);
    assert b + [] == b;
    TakeFlagOf(flag, []);
    assert TakeFlag(b) == (flag, []);
    assert TakeFront(flag, stale, []) == TakeFront(flag, h, []);
    assert TakeBack(flag, stale, []) == TakeBack(flag, h, []);
    NothingInFront(h);
    NothingBehind(h);
  }
}
