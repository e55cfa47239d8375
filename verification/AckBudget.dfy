/** Acks carried by messages (AddAckToMsg of net/SocketImpl.cpp): how many pending acks a
    message takes along, and exactly when it still fits the MTU with them. */
module AckBudget {
  import opened Bytes
  import opened Common
  import opened Wire
  import opened MsgHead
  import opened PendAck
  import opened Serializes

  const MSG_LENGTH_LIMIT := 432  // __msg_length_limit: room for a time stamp is kept back

  const MSG_BODY_SIZE := 400     // __msg_body_size: the longest body SendTo accepts

  // ---------------------------------------------------------------- what is attached

  /** The space left for acks. The difference is cut to 16 bits, so it is huge, not negative,
      for a message already over the limit. */
  function Budget(h: Header): Uint16 { (MSG_LENGTH_LIMIT - EstimateSize(h)) % UINT16 }

  function Ids(h: Header, m: Pending): (ids: seq<nat>)
    ensures AllIn(ids, m)
  {
    TakenIsLowest(m, Budget(h), 0);
    Taken(m, Budget(h), 0)
  }

  /** A header that takes along the acks it has room for, one list or the other. */
  function WithOrderly(h: Header, m: Pending): Header {
    var ids := Ids(h, m);
    h.(orderly := Acks(ids, TimesOf(m, ids)),
       flag := Marked(Marked(h.flag, WITH_ORDERLY_ACK, ids != []), WITH_TIME, TimesOf(m, ids) != []))
  }

  function WithReliable(h: Header, m: Pending): Header {
    var ids := Ids(h, m);
    h.(reliable := Acks(ids, TimesOf(m, ids)),
       flag := Marked(Marked(h.flag, WITH_RELIABLE_ACK, ids != []), WITH_TIME, TimesOf(m, ids) != []))
  }

  /** Old acks go, then both kinds of pending ones are attached, orderly ones first. */
  function Acked(h: Header, orderly: Pending, reliable: Pending): Header {
    WithReliable(WithOrderly(WithoutAcks(h), orderly), reliable)
  }

  function Waiting(p: PendAck?): Pending
    reads p
  {
    if p == null then map[] else p.ackMap
  }

  method SetOrderlyAck(head: Head, ids: seq<nat>, times: seq<nat>, continuity: bool)
    requires head.Value().orderly == NO_ACKS && !continuity
    modifies head
    ensures head.Value() == old(head.Value()).(orderly := Acks(ids, times),
              flag := Marked(Marked(old(head.flag), WITH_ORDERLY_ACK, ids != []), WITH_TIME, times != []))
  {
    var _ := head.AddReliableOrderlyAck(ids, continuity);
    var _ := head.AddReliableOrderlyAckTime(times);
  }

  method SetReliableAck(head: Head, ids: seq<nat>, times: seq<nat>, continuity: bool)
    requires head.Value().reliable == NO_ACKS && !continuity
    modifies head
    ensures head.Value() == old(head.Value()).(reliable := Acks(ids, times),
              flag := Marked(Marked(old(head.flag), WITH_RELIABLE_ACK, ids != []), WITH_TIME, times != []))
  {
    var _ := head.AddReliableAck(ids, continuity);
    var _ := head.AddReliableAckTime(times);
  }

  /** Either list is left alone when nothing waits for it. */
  method AttachOrderly(head: Head, p: PendAck?) returns (added: bool)
    requires head.Value().orderly == NO_ACKS
    modifies head, p
    ensures added <==> old(Waiting(p)) != map[]
    ensures head.Value() == WithOrderly(old(head.Value()), old(Waiting(p)))
    ensures TakenFrom(old(Waiting(p)), head.Value().orderly.ids, Waiting(p))
  {
    added := p != null && p.HasAck();
    TakenNothing(Waiting(p));
    if added {
      var _, ids, times, continuity := p.GetAck(false, Budget(head.Value()));
      SetOrderlyAck(head, ids, times, continuity);
    }
  }

  method AttachReliable(head: Head, p: PendAck?) returns (added: bool)
    requires head.Value().reliable == NO_ACKS
    modifies head, p
    ensures added <==> old(Waiting(p)) != map[]
    ensures head.Value() == WithReliable(old(head.Value()), old(Waiting(p)))
    ensures TakenFrom(old(Waiting(p)), head.Value().reliable.ids, Waiting(p))
  {
    added := p != null && p.HasAck();
    TakenNothing(Waiting(p));
    if added {
      var _, ids, times, continuity := p.GetAck(false, Budget(head.Value()));
      SetReliableAck(head, ids, times, continuity);
    }
  }

  /** Every ack attached was pending and is pending no more; every other one still is. */
  method AddAckToMsg(head: Head, orderly: PendAck?, reliable: PendAck?) returns (added: bool)
    requires orderly == null || orderly != reliable
    modifies head, orderly, reliable
    ensures added <==> old(Waiting(orderly)) != map[] || old(Waiting(reliable)) != map[]
    ensures head.Value() == Acked(old(head.Value()), old(Waiting(orderly)), old(Waiting(reliable)))
    ensures TakenFrom(old(Waiting(orderly)), head.Value().orderly.ids, Waiting(orderly))
    ensures TakenFrom(old(Waiting(reliable)), head.Value().reliable.ids, Waiting(reliable))
  {
    head.ClearAck();
    added := AttachOrderly(head, orderly);
    var more := AttachReliable(head, reliable);
    added := added || more;
  }

  // ---------------------------------------------------------------- its size

  /** Pending acks as CPendAck holds them: 16-bit ids, a time for each, not all 65536 ids. */
  ghost predicate Proper(m: Pending) {
    AllTimed(m) && |m| < UINT16 && forall id :: id in m ==> id < W16.Bound() && m[id] < W64.Bound()
  }

  /** A header without acks, as ClearAck leaves it. */
  predicate Plain(h: Header) {
    && h.orderly == NO_ACKS && h.reliable == NO_ACKS && !h.flag[WITH_ORDERLY_ACK] && !h.flag[WITH_RELIABLE_ACK]
    && !h.flag[ORDERLY_ACK_RANGE] && !h.flag[RELIABLE_ACK_RANGE]
  }

  /** The size after `n` timed acks were attached; the first ones bring a time stamp along. */
  function Attached(size: nat, timed: bool, n: nat): nat {
    if n == 0 then size else size + 2 + 10 * n + if timed then 0 else 8
  }

  lemma {:induction false} AttachedTimes(h: Header, m: Pending)
    requires Proper(m)
    ensures AllIn(Ids(h, m), m) && |TimesOf(m, Ids(h, m))| == |Ids(h, m)| < UINT16
  {
    TakenBounds(m, Budget(h), 0);
    TimesMatchIds(m, Ids(h, m));
  }

  lemma OrderlySize(h: Header, m: Pending)
    requires Plain(h) && Proper(m)
    ensures EstimateSize(WithOrderly(h, m)) == Attached(EstimateSize(h), h.flag[WITH_TIME], |Ids(h, m)|)
  {
    AttachedTimes(h, m);
  }

  lemma ReliableSize(h: Header, m: Pending)
    requires Proper(m) && h.reliable == NO_ACKS && !h.flag[WITH_RELIABLE_ACK] && !h.flag[RELIABLE_ACK_RANGE]
    requires h.flag[WITH_TIME] || !h.flag[WITH_ORDERLY_ACK]
    ensures EstimateSize(WithReliable(h, m)) == Attached(EstimateSize(h), h.flag[WITH_TIME], |Ids(h, m)|)
  {
    AttachedTimes(h, m);
  }

  // ---------------------------------------------------------------- how many are taken

  /** How many of `k` pending acks a message of a given size takes, within the limit. */
  function Share(size: nat, k: nat): nat
    requires size <= MSG_LENGTH_LIMIT
  {
    Min(k, Quota(MSG_LENGTH_LIMIT - size))
  }

  /** What is known of the number `n` taken out of `k`: within the limit it is the largest that
      fits, and over it, as long as that could matter, it is not none. */
  ghost predicate Takes(size: nat, k: nat, n: nat) {
    && n <= k
    && (size <= MSG_LENGTH_LIMIT ==> n == Share(size, k))
    && (MSG_LENGTH_LIMIT < size <= MTU + 1 && k > 0 ==> n > 0)
  }

  lemma BudgetIs(h: Header)
    ensures EstimateSize(h) <= MSG_LENGTH_LIMIT ==> Budget(h) == MSG_LENGTH_LIMIT - EstimateSize(h)
    ensures MSG_LENGTH_LIMIT < EstimateSize(h) <= MTU + 1 ==> Budget(h) > 10
  {}

  lemma IdsCount(h: Header, m: Pending)
    requires Proper(m)
    ensures Takes(EstimateSize(h), |m|, |Ids(h, m)|)
  {
    BudgetIs(h);
    CountIs(EstimateSize(h), m, Budget(h));
  }

  lemma {:induction false} CountIs(size: nat, m: Pending, limit: Uint16)
    requires Proper(m) && (size <= MSG_LENGTH_LIMIT ==> limit == MSG_LENGTH_LIMIT - size)
    requires MSG_LENGTH_LIMIT < size <= MTU + 1 ==> limit > 10
    ensures Takes(size, |m|, |Taken(m, limit, 0)|)
  {
    if size <= MSG_LENGTH_LIMIT { TakenCount(m, limit, 0); }
    TakenBounds(m, limit, 0);
  }

  /** One list on a timestamped message within the limit leaves it at most one byte over. */
  lemma OneListStaysClose(h: Header, m: Pending)
    requires Plain(h) && Proper(m) && h.flag[WITH_TIME] && EstimateSize(h) <= MSG_LENGTH_LIMIT
    ensures EstimateSize(WithOrderly(h, m)) <= MSG_LENGTH_LIMIT + 1
    ensures EstimateSize(WithOrderly(h, m)) > MSG_LENGTH_LIMIT
            <==> EstimateSize(h) <= 421 && EstimateSize(h) % 10 == 1 && 10 * |m| >= 431 - EstimateSize(h)
  {
    OrderlySize(h, m);
    IdsCount(h, m);
  }

  // ---------------------------------------------------------------- when it fits

  /** Enough pending acks to fill a timestamped message of this size to exactly one byte over
      the limit: only every tenth size leaves the rounding no slack. */
  predicate Tight(size: nat, k: nat) { size <= 421 && size % 10 == 1 && 10 * k >= 431 - size }

  predicate TimedFits(size: nat, orderly: nat, reliable: nat) {
    if orderly == 0 && reliable == 0 then size <= MTU
    else size <= MSG_LENGTH_LIMIT && !(reliable > 0 && Tight(size, orderly))
  }

  predicate UntimedFits(size: nat, orderly: nat, reliable: nat) {
    if orderly == 0 && reliable == 0 then size <= MTU
    else
      && size <= MSG_LENGTH_LIMIT
      && if orderly == 0 then !Tight(size, reliable)
         else if reliable == 0 then !Tight(size, orderly)
         else size > 421 || 10 * orderly <= 422 - size || size % 10 == 2
  }

  /** The sizes a message goes through as it takes `n` and then `k` acks. */
  ghost predicate Grows(size: nat, timed: bool, orderly: nat, reliable: nat, n: nat, k: nat, last: nat) {
    var middle := Attached(size, timed, n);
    Takes(size, orderly, n) && Takes(middle, reliable, k) && last == Attached(middle, timed || n > 0, k)
  }

  lemma TimedGrowth(size: nat, orderly: nat, reliable: nat, n: nat, k: nat, last: nat)
    requires Grows(size, true, orderly, reliable, n, k, last)
    ensures last <= MTU <==> TimedFits(size, orderly, reliable)
  {}

  lemma UntimedGrowth(size: nat, orderly: nat, reliable: nat, n: nat, k: nat, last: nat)
    requires Grows(size, false, orderly, reliable, n, k, last)
    ensures last <= MTU <==> UntimedFits(size, orderly, reliable)
  {}

  lemma {:induction false} AckedSize(h: Header, orderly: Pending, reliable: Pending)
    requires Plain(h) && Proper(orderly) && Proper(reliable)
    ensures var middle := WithOrderly(h, orderly);
            Grows(EstimateSize(h), h.flag[WITH_TIME], |orderly|, |reliable|, |Ids(h, orderly)|,
                  |Ids(middle, reliable)|, EstimateSize(WithReliable(middle, reliable)))
  {
    OrderlySize(h, orderly);
    AttachedTimes(h, orderly);
    IdsCount(h, orderly);
    SecondListSize(h, orderly, reliable);
  }

  lemma {:induction false} SecondListSize(h: Header, orderly: Pending, reliable: Pending)
    requires Plain(h) && Proper(orderly) && Proper(reliable)
    ensures var middle := WithOrderly(h, orderly);
            && Takes(EstimateSize(middle), |reliable|, |Ids(middle, reliable)|)
            && EstimateSize(WithReliable(middle, reliable))
               == Attached(EstimateSize(middle), h.flag[WITH_TIME] || |Ids(h, orderly)| > 0, |Ids(middle, reliable)|)
  {
    AttachedTimes(h, orderly);
    ReliableSize(WithOrderly(h, orderly), reliable);
    IdsCount(WithOrderly(h, orderly), reliable);
  }

  lemma ClearedIsPlain(h: Header)
    ensures Plain(WithoutAcks(h)) && WithoutAcks(h).flag[WITH_TIME] == h.flag[WITH_TIME]
  {}

  /** When a timestamped message fits with its acks: it was within the limit, and not of a size
      that the orderly acks fill to one byte over it while reliable ones wait too. */
  lemma TimedFitsIff(h: Header, orderly: Pending, reliable: Pending)
    requires Proper(orderly) && Proper(reliable) && h.flag[WITH_TIME]
    ensures EstimateSize(Acked(h, orderly, reliable)) <= MTU
            <==> TimedFits(EstimateSize(WithoutAcks(h)), |orderly|, |reliable|)
  {
    var plain := WithoutAcks(h);
    ClearedIsPlain(h);
    AckedSize(plain, orderly, reliable);
    TimedGrowth(EstimateSize(plain), |orderly|, |reliable|, |Ids(plain, orderly)|,
                |Ids(WithOrderly(plain, orderly), reliable)|, EstimateSize(Acked(h, orderly, reliable)));
  }

  /** When a message without a time stamp, an ack-only one in particular, fits with its acks. */
  lemma UntimedFitsIff(h: Header, orderly: Pending, reliable: Pending)
    requires Proper(orderly) && Proper(reliable) && !h.flag[WITH_TIME]
    ensures EstimateSize(Acked(h, orderly, reliable)) <= MTU
            <==> UntimedFits(EstimateSize(WithoutAcks(h)), |orderly|, |reliable|)
  {
    var plain := WithoutAcks(h);
    ClearedIsPlain(h);
    AckedSize(plain, orderly, reliable);
    UntimedGrowth(EstimateSize(plain), |orderly|, |reliable|, |Ids(plain, orderly)|,
                  |Ids(WithOrderly(plain, orderly), reliable)|, EstimateSize(Acked(h, orderly, reliable)));
  }

  /** An ack-only message with 42 orderly acks and any reliable one does not fit. */
  lemma AckOnlyCanOverflow(orderly: Pending, reliable: Pending)
    requires Proper(orderly) && Proper(reliable)
    ensures EstimateSize(Acked(FRESH, orderly, reliable)) > MTU <==> |orderly| >= 42 && |reliable| > 0
  {
    UntimedFitsIff(FRESH, orderly, reliable);
  }

  // ---------------------------------------------------------------- it arrives with its acks

  lemma OrderlyKeepsWellFormed(h: Header, body: seq<Byte>, m: Pending)
    requires WellFormed(h, body) && Plain(h) && Proper(m)
    ensures WellFormed(WithOrderly(h, m), body)
  {
    AttachedTimes(h, m);
    TimesMatchIds(m, Ids(h, m));
  }

  lemma ReliableKeepsWellFormed(h: Header, body: seq<Byte>, m: Pending)
    requires WellFormed(h, body) && Proper(m)
    requires h.reliable == NO_ACKS && !h.flag[WITH_RELIABLE_ACK] && !h.flag[RELIABLE_ACK_RANGE]
    requires h.flag[WITH_TIME] || !h.flag[WITH_ORDERLY_ACK]
    ensures WellFormed(WithReliable(h, m), body)
  {
    AttachedTimes(h, m);
    TimesMatchIds(m, Ids(h, m));
  }

  lemma AckedIsWellFormed(h: Header, body: seq<Byte>, orderly: Pending, reliable: Pending)
    requires WellFormed(h, body) && Proper(orderly) && Proper(reliable)
    ensures WellFormed(Acked(h, orderly, reliable), body)
  {
    var plain := WithoutAcks(h);
    assert WellFormed(plain, body);
    OrderlyKeepsWellFormed(plain, body, orderly);
    AttachedTimes(plain, orderly);
    ReliableKeepsWellFormed(WithOrderly(plain, orderly), body, reliable);
  }

  /** A well-formed message stays one, whatever acks it drops and takes along; and when it fits,
      it arrives with exactly those acks and their times. */
  lemma AckedMessageArrives(stale: Header, h: Header, body: seq<Byte>, orderly: Pending, reliable: Pending)
    requires WellFormed(h, body) && Proper(orderly) && Proper(reliable) && Cleared(stale)
    ensures WellFormed(Acked(h, orderly, reliable), body)
    ensures Received(stale, Sent(Acked(h, orderly, reliable), body))
            == Some((Over(stale, Acked(h, orderly, reliable)), body))
            <==> EstimateSize(Acked(h, orderly, reliable)) <= MTU
  {
    AckedIsWellFormed(h, body, orderly, reliable);
    RoundTripIff(stale, Acked(h, orderly, reliable), body);
  }

  /** A user's message on its way out: with an id, a time stamp and a body SendTo accepts. */
  ghost predicate IsData(h: Header, body: seq<Byte>) {
    WellFormed(h, body) && h.flag[WITH_ID] && h.flag[WITH_TIME] && h.flag[WITH_BODY] && |body| <= MSG_BODY_SIZE
  }

  /** Attaching acks leaves everything else, and never takes the time stamp away. */
  lemma {:induction false} AckedKeepsRest(h: Header, orderly: Pending, reliable: Pending)
    ensures var a := Acked(h, orderly, reliable);
            && (a.id, a.bodyLen, a.sendTime) == (h.id, h.bodyLen, h.sendTime)
            && (h.flag[WITH_TIME] ==> a.flag[WITH_TIME])
            && forall k :: 0 <= k < 32 && k !in {RELIABLE_ACK_RANGE, ORDERLY_ACK_RANGE, WITH_RELIABLE_ACK, WITH_ORDERLY_ACK, WITH_TIME}
                 ==> a.flag[k] == h.flag[k]
  {}

  lemma DataSize(h: Header, body: seq<Byte>)
    requires IsData(h, body)
    ensures EstimateSize(WithoutAcks(h)) == 16 + |body|
  {}

  lemma NothingIsStale(stale: Header, a: Header)
    requires Cleared(stale) && a.flag[WITH_ID] && a.flag[WITH_TIME] && a.flag[WITH_BODY]
    ensures Over(stale, a) == a
  {}

  lemma DataCondition(size: nat, orderly: nat, reliable: nat)
    requires size <= MSG_BODY_SIZE
    ensures TimedFits(16 + size, orderly, reliable) <==> !(size % 10 == 5 && 10 * orderly >= 415 - size && reliable > 0)
  {}

  /** A user's message fits with its acks exactly unless the last digit of its body length is 5,
      enough orderly acks wait to fill it, and any reliable one waits too. */
  lemma DataFitsIff(h: Header, body: seq<Byte>, orderly: Pending, reliable: Pending)
    requires IsData(h, body) && Proper(orderly) && Proper(reliable)
    ensures EstimateSize(Acked(h, orderly, reliable)) <= MTU
            <==> !(|body| % 10 == 5 && 10 * |orderly| >= 415 - |body| && |reliable| > 0)
  {
    DataSize(h, body);
    TimedFitsIff(h, orderly, reliable);
    DataCondition(|body|, |orderly|, |reliable|);
  }

  /** And then, and only then, it arrives whole, with all the acks it took along. */
  lemma DataArrivesIff(stale: Header, h: Header, body: seq<Byte>, orderly: Pending, reliable: Pending)
    requires IsData(h, body) && Proper(orderly) && Proper(reliable) && Cleared(stale)
    ensures Received(stale, Sent(Acked(h, orderly, reliable), body)) == Some((Acked(h, orderly, reliable), body))
            <==> !(|body| % 10 == 5 && 10 * |orderly| >= 415 - |body| && |reliable| > 0)
  {
    DataFitsIff(h, body, orderly, reliable);
    AckedMessageArrives(stale, h, body, orderly, reliable);
    AckedKeepsRest(h, orderly, reliable);
    NothingIsStale(stale, Acked(h, orderly, reliable));
  }

  // ---------------------------------------------------------------- where the acks go

  /** The acks a receiver finds in a header. Which kind it asked for makes no difference: the
      orderly list, when there is one, hides the reliable one. */
  function FoundAcks(h: Header): Acks {
    var reliable := if h.flag[WITH_RELIABLE_ACK] then h.reliable else NO_ACKS;
    if h.flag[WITH_ORDERLY_ACK] then Merged(h.orderly, reliable) else reliable
  }

  method GetAck(head: Head, flag: nat) returns (ids: seq<nat>, times: seq<nat>)
    ensures Acks(ids, times) == FoundAcks(head.Value())
  {
    ids, times := [], [];
    if head.flag[WITH_RELIABLE_ACK] {
      if head.ackReliableVec != [] { ids := head.ackReliableVec; }
      if head.reliableMsgSendTimeVec != [] { times := head.reliableMsgSendTimeVec; }
    }
    if head.flag[WITH_ORDERLY_ACK] {
      if head.ackReliableOrderlyVec != [] { ids := head.ackReliableOrderlyVec; }
      if head.reliableOrderlyMsgSendTimeVec != [] { times := head.reliableOrderlyMsgSendTimeVec; }
    }
  }

  /** The orderly window always gets its own acks. The reliable one gets its own if and only if the
      message brings no orderly ones, or the same; otherwise it is told that the ids of the other
      window are acked. */
  lemma AcksReachTheirWindowIff(h: Header, body: seq<Byte>)
    requires WellFormed(h, body)
    ensures h.flag[WITH_ORDERLY_ACK] ==> FoundAcks(h) == h.orderly
    ensures h.flag[WITH_RELIABLE_ACK] ==> (FoundAcks(h) == h.reliable <==> !h.flag[WITH_ORDERLY_ACK] || h.orderly == h.reliable)
  {
    if h.flag[WITH_ORDERLY_ACK] && h.flag[WITH_TIME] { assert h.orderly.times != []; }
    if !h.flag[WITH_TIME] { assert h.reliable.times == []; }
  }

  /** So of two lists a message takes along, the receiver applies the orderly one twice. */
  lemma BothListsAreOne(h: Header, body: seq<Byte>, orderly: Pending, reliable: Pending)
    requires WellFormed(h, body) && Proper(orderly) && Proper(reliable)
    ensures var a := Acked(h, orderly, reliable);
            a.flag[WITH_ORDERLY_ACK] && a.flag[WITH_RELIABLE_ACK] ==> FoundAcks(a) == a.orderly
  {
    AckedIsWellFormed(h, body, orderly, reliable);
    AcksReachTheirWindowIff(Acked(h, orderly, reliable), body);
  }

  // ---------------------------------------------------------------- without times

  /** Pending acks without times, as they are when messages carry no time stamps. */
  ghost predicate Bare(m: Pending) { NoneTimed(m) && |m| < UINT16 && forall id :: id in m ==> id < W16.Bound() }

  function BareAttached(size: nat, n: nat): nat { if n == 0 then size else size + 2 + 2 * n }

  /** What is known of the number taken: the largest that fits; over the limit, everything, or at
      any rate far too many. */
  ghost predicate BareTakes(size: nat, k: nat, n: nat) {
    && n <= k
    && (size <= MSG_LENGTH_LIMIT ==> n == Min(k, BareQuota(MSG_LENGTH_LIMIT - size)))
    && (MSG_LENGTH_LIMIT < size <= MTU ==> n == k || n > 1000)
  }

  /** Within the limit only odd sizes are filled to one byte over it, and then three acks of the
      other kind are too many; over it each list simply adds its length. */
  predicate BareFits(size: nat, orderly: nat, reliable: nat) {
    if size > MSG_LENGTH_LIMIT then BareAttached(BareAttached(size, orderly), reliable) <= MTU
    else !(size % 2 == 1 && size <= 429 && 2 * orderly >= 431 - size && reliable >= 3)
  }

  lemma {:induction false} BareIdsCount(h: Header, m: Pending)
    requires Bare(m)
    ensures BareTakes(EstimateSize(h), |m|, |Ids(h, m)|) && TimesOf(m, Ids(h, m)) == []
  {
    var size, limit := EstimateSize(h), Budget(h);
    BudgetIs(h);
    TakenBounds(m, limit, 0);
    BareTimes(m, Ids(h, m));
    if size <= MTU { BareLimit(size, limit); }
    if size <= MSG_LENGTH_LIMIT { BareCount(m, limit, 0); } else if size <= MTU { BareMany(m, limit, 0); }
  }

  lemma BareLimit(size: nat, limit: Uint16)
    requires size <= MTU && limit == (MSG_LENGTH_LIMIT - size) % UINT16
    ensures if size <= MSG_LENGTH_LIMIT then limit == MSG_LENGTH_LIMIT - size else 65528 <= limit <= 65535
  {
  }

  /** The sizes of the two ack lists in a header. */
  function ListSizes(h: Header): nat {
    AckSize(h.flag, WITH_ORDERLY_ACK, ORDERLY_ACK_RANGE, h.orderly) + AckSize(h.flag, WITH_RELIABLE_ACK, RELIABLE_ACK_RANGE, h.reliable)
  }

  lemma {:induction false} OnlyListsGrow(h: Header, r: Header)
    requires r.bodyLen == h.bodyLen && forall k :: k == WITH_ID || k == WITH_TIME || k == WITH_BODY ==> r.flag[k] == h.flag[k]
    ensures EstimateSize(r) + ListSizes(h) == EstimateSize(h) + ListSizes(r)
  {
    assert r.flag[WITH_ID] == h.flag[WITH_ID] && r.flag[WITH_TIME] == h.flag[WITH_TIME] && r.flag[WITH_BODY] == h.flag[WITH_BODY];
  }

  lemma {:induction false} BareListSize(flag: Word, present: nat, range: nat, ids: seq<nat>)
    requires present < 32 && range < 32 && !flag[range] && !flag[WITH_TIME] && |ids| < UINT16 && (ids != [] ==> flag[present])
    ensures AckSize(flag, present, range, Acks(ids, [])) == BareAttached(0, |ids|)
  {
    assert |ids| % UINT16 == |ids|;
  }

  lemma {:induction false} BareOrderlySize(h: Header, m: Pending)
    requires Plain(h) && Bare(m) && !h.flag[WITH_TIME]
    ensures EstimateSize(WithOrderly(h, m)) == BareAttached(EstimateSize(h), |Ids(h, m)|)
    ensures !WithOrderly(h, m).flag[WITH_TIME]
  {
    BareIdsCount(h, m);
    var r := WithOrderly(h, m);
    OnlyListsGrow(h, r);
    BareListSize(r.flag, WITH_ORDERLY_ACK, ORDERLY_ACK_RANGE, r.orderly.ids);
  }

  lemma {:induction false} BareReliableSize(h: Header, m: Pending)
    requires Bare(m) && !h.flag[WITH_TIME] && h.reliable == NO_ACKS && !h.flag[WITH_RELIABLE_ACK] && !h.flag[RELIABLE_ACK_RANGE]
    ensures EstimateSize(WithReliable(h, m)) == BareAttached(EstimateSize(h), |Ids(h, m)|)
  {
    BareIdsCount(h, m);
    var r := WithReliable(h, m);
    OnlyListsGrow(h, r);
    BareListSize(r.flag, WITH_RELIABLE_ACK, RELIABLE_ACK_RANGE, r.reliable.ids);
    assert AckSize(r.flag, WITH_ORDERLY_ACK, ORDERLY_ACK_RANGE, r.orderly) == AckSize(h.flag, WITH_ORDERLY_ACK, ORDERLY_ACK_RANGE, h.orderly);
  }

  lemma {:induction false} BareGrowth(size: nat, orderly: nat, reliable: nat, n: nat, k: nat)
    requires BareTakes(size, orderly, n) && BareTakes(BareAttached(size, n), reliable, k)
    ensures BareAttached(BareAttached(size, n), k) <= MTU <==> BareFits(size, orderly, reliable)
  {
  }

  /** When a message without a time stamp fits with acks that carry no times. */
  lemma {:induction false} BareFitsIff(h: Header, orderly: Pending, reliable: Pending)
    requires Bare(orderly) && Bare(reliable) && !h.flag[WITH_TIME]
    ensures EstimateSize(Acked(h, orderly, reliable)) <= MTU <==> BareFits(EstimateSize(WithoutAcks(h)), |orderly|, |reliable|)
  {
    var plain := WithoutAcks(h);
    var middle := WithOrderly(plain, orderly);
    ClearedIsPlain(h);
    BareOrderlySize(plain, orderly);
    BareReliableSize(middle, reliable);
    BareIdsCount(plain, orderly);
    BareIdsCount(middle, reliable);
    BareGrowth(EstimateSize(plain), |orderly|, |reliable|, |Ids(plain, orderly)|, |Ids(middle, reliable)|);
  }
}
