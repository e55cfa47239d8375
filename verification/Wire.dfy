/** The wire format as values: what common/Serializes.cpp writes for a message, what it reads
    back, the size it predicts, and the laws that tie the three together. */
module Wire {
  import opened Bytes
  import opened Common

  const MTU := 440  // __mtu

  // Bit numbers in the header flag.
  const RELIABLE_ACK_RANGE := 8
  const ORDERLY_ACK_RANGE := 9
  const WITH_ID := 12
  const WITH_RELIABLE_ACK := 13
  const WITH_ORDERLY_ACK := 14
  const WITH_BODY := 15
  const WITH_TIME := 16

  // ---------------------------------------------------------------- a message

  /** One kind of ack: the ids and the times their messages were sent. */
  datatype Acks = Acks(ids: seq<nat>, times: seq<nat>)

  /** A header as a value; the class in MsgHead.dfy holds one. */
  datatype Header = Header(flag: Word, id: nat, bodyLen: nat, sendTime: nat, orderly: Acks, reliable: Acks)

  const NO_ACKS := Acks([], [])
  function NoFlags(): (f: Word)
    ensures forall k :: 0 <= k < 32 ==> !f[k]
  {
    seq(32, _ => false)
  }

  const FRESH := Header(NoFlags(), 0, 0, 0, NO_ACKS, NO_ACKS)

  ghost predicate Below(vs: seq<nat>, limit: nat) { forall i :: 0 <= i < |vs| ==> vs[i] < limit }

  ghost predicate AcksInWidth(a: Acks) { Below(a.ids, W16.Bound()) && Below(a.times, W64.Bound()) }

  /** Every field holds a number of its width. */
  ghost predicate InWidth(h: Header) {
    && h.id < W16.Bound() && h.bodyLen < W16.Bound() && h.sendTime < W64.Bound()
    && AcksInWidth(h.orderly) && AcksInWidth(h.reliable)
  }

  /** What is serialized of a body or a list: its length is cut to 16 bits. */
  function Cut<T>(s: seq<T>): seq<T> { s[..|s| % UINT16] }

  /** What the serializer indexes is there: a time for every id it writes of a timestamped list. */
  predicate Timed(flag: Word, present: nat, a: Acks)
    requires present < 32
  {
    flag[present] && flag[WITH_TIME] ==> |a.times| >= |Cut(a.ids)|
  }

  predicate Serializable(h: Header) {
    Timed(h.flag, WITH_ORDERLY_ACK, h.orderly) && Timed(h.flag, WITH_RELIABLE_ACK, h.reliable)
  }

  /** Acks as the header's setters leave them: present exactly when flagged, with times only
      when the message is timestamped, and consecutive when flagged as a range. */
  ghost predicate AcksFit(flag: Word, present: nat, range: nat, a: Acks)
    requires present < 32 && range < 32
  {
    && |a.ids| < UINT16
    && (flag[present] <==> a.ids != [])
    && (flag[present] && flag[WITH_TIME] ==> |a.times| == |a.ids|)
    && (!flag[present] || !flag[WITH_TIME] ==> a.times == [])
    && (flag[range] && a.ids != [] ==> a.ids == Range(a.ids[0], |a.ids|))
  }

  ghost predicate WellFormed(h: Header, body: seq<Byte>) {
    && InWidth(h)
    && AcksFit(h.flag, WITH_ORDERLY_ACK, ORDERLY_ACK_RANGE, h.orderly)
    && AcksFit(h.flag, WITH_RELIABLE_ACK, RELIABLE_ACK_RANGE, h.reliable)
    && h.bodyLen == |body|
    && (!h.flag[WITH_ID] ==> h.id == 0)
    && (!h.flag[WITH_BODY] ==> body == [])
  }

  // ---------------------------------------------------------------- encoding

  function Num(v: nat, w: Width): seq<Byte> { ToBytes(v, w.Size()) }

  function Many(vs: seq<nat>, w: Width): seq<Byte> {
    if vs == [] then [] else Num(vs[0], w) + Many(vs[1..], w)
  }

  /** A field that is there only when flagged. */
  function Flagged(flagged: bool, v: nat, w: Width): seq<Byte> { if flagged then Num(v, w) else [] }

  function IdBytes(flag: Word, range: nat, ids: seq<nat>): seq<Byte>
    requires range < 32 && ids != []
  {
    if flag[range] then Num(ids[0], W16) else Many(ids, W16)
  }

  /** An empty list is written without its length. */
  function ListBytes(flag: Word, range: nat, ids: seq<nat>): seq<Byte>
    requires range < 32
  {
    if ids == [] then [] else Num(|ids|, W16) + IdBytes(flag, range, ids)
  }

  function TimeBytes(flag: Word, times: seq<nat>): seq<Byte> { if flag[WITH_TIME] then Many(times, W64) else [] }

  /** The times that go with the ids that are written. */
  function TimesSent(a: Acks): seq<nat> { a.times[..Min(|a.times|, |Cut(a.ids)|)] }

  function AckBytes(flag: Word, present: nat, range: nat, a: Acks): seq<Byte>
    requires present < 32 && range < 32
  {
    if !flag[present] then [] else ListBytes(flag, range, Cut(a.ids)) + TimeBytes(flag, TimesSent(a))
  }

  function OrderlyBytes(h: Header): seq<Byte> { AckBytes(h.flag, WITH_ORDERLY_ACK, ORDERLY_ACK_RANGE, h.orderly) }

  function ReliableBytes(h: Header): seq<Byte> { AckBytes(h.flag, WITH_RELIABLE_ACK, RELIABLE_ACK_RANGE, h.reliable) }

  function HeadBytes(h: Header): seq<Byte> {
    Num(BitsValue(h.flag), W32)
    + Flagged(h.flag[WITH_ID], h.id, W16)
    + Flagged(h.flag[WITH_TIME], h.sendTime, W64)
    + OrderlyBytes(h)
    + ReliableBytes(h)
    + Flagged(h.flag[WITH_BODY], h.bodyLen, W16)
  }

  /** The header once the serializer has noted a non-empty body in it. */
  function WithBody(h: Header, len: nat): Header {
    if len > 0 then h.(bodyLen := len, flag := h.flag[WITH_BODY := true]) else h
  }

  /** The packet a message makes, whether or not it fits. */
  function Packet(h: Header, body: seq<Byte>): seq<Byte> { HeadBytes(WithBody(h, |Cut(body)|)) + Cut(body) }

  /** What is sent for a message: nothing when its packet is over the MTU. */
  function Sent(h: Header, body: seq<Byte>): seq<Byte> {
    if |Packet(h, body)| <= MTU then Packet(h, body) else []
  }

  // ---------------------------------------------------------------- decoding

  function TakeNum(b: seq<Byte>, w: Width): Option<(nat, seq<Byte>)> {
    if |b| < w.Size() then None else Some((FromBytes(b[..w.Size()]), b[w.Size()..]))
  }

  /** Values put in front of those a read returns. */
  function Before(vs: seq<nat>, r: Option<(seq<nat>, seq<Byte>)>): Option<(seq<nat>, seq<Byte>)> {
    if r.None? then None else Some((vs + r.value.0, r.value.1))
  }

  function TakeMany(b: seq<Byte>, w: Width, k: nat): (r: Option<(seq<nat>, seq<Byte>)>)
    ensures r.Some? ==> |r.value.0| == k
  {
    if k == 0 then Some(([], b)) else
    var v := TakeNum(b, w);
    if v.None? then None else Before([v.value.0], TakeMany(v.value.1, w, k - 1))
  }

  /** `k` consecutive ids modulo 65536. */
  function Range(first: nat, k: nat): (r: seq<nat>)
    ensures |r| == k && forall i :: 0 <= i < k ==> r[i] == (first + i) % UINT16
  {
    if k == 0 then [] else Range(first, k - 1) + [(first + k - 1) % UINT16]
  }

  function TakeIds(flag: Word, range: nat, b: seq<Byte>, len: nat): Option<(seq<nat>, seq<Byte>)>
    requires range < 32
  {
    if !flag[range] then TakeMany(b, W16, len) else
    var first := TakeNum(b, W16);
    if first.None? then None else Some((Range(first.value.0, len), first.value.1))
  }

  function TakeTimes(flag: Word, b: seq<Byte>, len: nat): Option<(seq<nat>, seq<Byte>)> {
    if flag[WITH_TIME] then TakeMany(b, W64, len) else Some(([], b))
  }

  /** The ids and times behind the length of a list. */
  function TakeRest(flag: Word, range: nat, b: seq<Byte>, len: nat): Option<(Acks, seq<Byte>)>
    requires range < 32
  {
    var ids := TakeIds(flag, range, b, len);
    if ids.None? then None else
    var times := TakeTimes(flag, ids.value.1, len);
    if times.None? then None else Some((Acks(ids.value.0, times.value.0), times.value.1))
  }

  function TakeAcks(flag: Word, present: nat, range: nat, b: seq<Byte>): Option<(Acks, seq<Byte>)>
    requires present < 32 && range < 32
  {
    if !flag[present] then Some((NO_ACKS, b)) else
    var len := TakeNum(b, W16);
    if len.None? then None else TakeRest(flag, range, len.value.1, len.value.0)
  }

  /** The orderly list, then the reliable one. */
  function TakeLists(flag: Word, b: seq<Byte>): Option<(Acks, Acks, seq<Byte>)> {
    var orderly := TakeAcks(flag, WITH_ORDERLY_ACK, ORDERLY_ACK_RANGE, b);
    if orderly.None? then None else
    var reliable := TakeAcks(flag, WITH_RELIABLE_ACK, RELIABLE_ACK_RANGE, orderly.value.1);
    if reliable.None? then None else Some((orderly.value.0, reliable.value.0, reliable.value.1))
  }

  /** A field that is not flagged keeps what the header held. */
  function TakeFlagged(flagged: bool, stale: nat, b: seq<Byte>, w: Width): Option<(nat, seq<Byte>)> {
    if flagged then TakeNum(b, w) else Some((stale, b))
  }

  /** The id and the send time. */
  function TakeFront(flag: Word, stale: Header, b: seq<Byte>): Option<(nat, nat, seq<Byte>)> {
    var id := TakeFlagged(flag[WITH_ID], stale.id, b, W16);
    if id.None? then None else
    var time := TakeFlagged(flag[WITH_TIME], stale.sendTime, id.value.1, W64);
    if time.None? then None else Some((id.value.0, time.value.0, time.value.1))
  }

  /** The read of the flag word is not checked: short input reads as no flags. */
  function TakeFlag(b: seq<Byte>): (Word, seq<Byte>) {
    if TakeNum(b, W32).None? then (NoFlags(), b)
    else (ValueBits(TakeNum(b, W32).value.0, 32), TakeNum(b, W32).value.1)
  }

  /** Acks are added once: a list that is there already stays. */
  function Merged(stale: Acks, a: Acks): Acks {
    Acks(if stale.ids != [] then stale.ids else a.ids, if stale.times != [] then stale.times else a.times)
  }

  /** The acks, as the header then has them, and the body length. */
  function TakeBack(flag: Word, stale: Header, b: seq<Byte>): Option<(Acks, Acks, nat, seq<Byte>)> {
    var acks := TakeLists(flag, b);
    if acks.None? then None else
    var len := TakeFlagged(flag[WITH_BODY], stale.bodyLen, acks.value.2, W16);
    if len.None? then None else
    Some((Merged(stale.orderly, acks.value.0), Merged(stale.reliable, acks.value.1), len.value.0, len.value.1))
  }

  /** Reading a header over `stale`. */
  function TakeHead(stale: Header, b: seq<Byte>): Option<(Header, seq<Byte>)> {
    var flag := TakeFlag(b).0;
    var front := TakeFront(flag, stale, TakeFlag(b).1);
    if front.None? then None else
    var back := TakeBack(flag, stale, front.value.2);
    if back.None? then None else
    Some((Header(flag, front.value.0, back.value.2, front.value.1, back.value.0, back.value.1), back.value.3))
  }

  // ---------------------------------------------------------------- what a failed read leaves

  /** The ids and times behind the length of a list: the ids once they are all there, and the times
      once they are. */
  function RestRead(flag: Word, range: nat, b: seq<Byte>, len: nat): Acks
    requires range < 32
  {
    var ids := TakeIds(flag, range, b, len);
    if ids.None? then NO_ACKS else
    var times := TakeTimes(flag, ids.value.1, len);
    Acks(ids.value.0, if times.None? then [] else times.value.0)
  }

  /** What the read of an ack list adds to the header, whether or not it fails. */
  function AcksRead(flag: Word, present: nat, range: nat, b: seq<Byte>): Acks
    requires present < 32 && range < 32
  {
    if !flag[present] then NO_ACKS else
    var len := TakeNum(b, W16);
    if len.None? then NO_ACKS else RestRead(flag, range, len.value.1, len.value.0)
  }

  /** A header after the id and the send time were read over it, as far as they are there. */
  function FrontRead(h: Header, b: seq<Byte>): Header {
    var id := TakeFlagged(h.flag[WITH_ID], h.id, b, W16);
    if id.None? then h else
    var time := TakeFlagged(h.flag[WITH_TIME], h.sendTime, id.value.1, W64);
    h.(id := id.value.0, sendTime := if time.None? then h.sendTime else time.value.0)
  }

  function ListsRead(h: Header, b: seq<Byte>): Header {
    var first := h.(orderly := Merged(h.orderly, AcksRead(h.flag, WITH_ORDERLY_ACK, ORDERLY_ACK_RANGE, b)));
    var orderly := TakeAcks(h.flag, WITH_ORDERLY_ACK, ORDERLY_ACK_RANGE, b);
    if orderly.None? then first
    else first.(reliable := Merged(h.reliable, AcksRead(h.flag, WITH_RELIABLE_ACK, RELIABLE_ACK_RANGE, orderly.value.1)))
  }

  function BackRead(h: Header, b: seq<Byte>): Header {
    var acks := TakeLists(h.flag, b);
    if acks.None? then ListsRead(h, b) else
    var len := TakeFlagged(h.flag[WITH_BODY], h.bodyLen, acks.value.2, W16);
    ListsRead(h, b).(bodyLen := if len.None? then h.bodyLen else len.value.0)
  }

  /** The header a read leaves, whether or not it fails: the flag word of the packet, and of the
      other fields those that came before the read failed. */
  function HeadRead(stale: Header, b: seq<Byte>): Header {
    var h := stale.(flag := TakeFlag(b).0);
    var front := TakeFront(h.flag, h, TakeFlag(b).1);
    if front.None? then FrontRead(h, TakeFlag(b).1) else BackRead(FrontRead(h, TakeFlag(b).1), front.value.2)
  }

  /** What Deseriali makes of the bytes in a stream: a header and a body, or a failure. */
  function Deserialized(stale: Header, b: seq<Byte>): Option<(Header, seq<Byte>)> {
    var head := TakeHead(stale, b);
    if head.None? || |head.value.1| < head.value.0.bodyLen then None
    else Some((head.value.0, head.value.1[..head.value.0.bodyLen]))
  }

  /** The bytes a stream holds once it was given a packet: none when the packet, its length
      cut to 16 bits, is over the MTU. */
  function Loaded(packet: seq<Byte>): seq<Byte> {
    if |packet| % UINT16 <= MTU then packet[..|packet| % UINT16] else []
  }

  /** What a received packet becomes. The stream's refusal of an overlong one goes unnoticed. */
  function Received(stale: Header, packet: seq<Byte>): Option<(Header, seq<Byte>)> {
    Deserialized(stale, Loaded(packet))
  }

  // ---------------------------------------------------------------- reading back what was written

  lemma TakeNumOf(v: nat, w: Width, rest: seq<Byte>)
    requires v < w.Bound()
    ensures TakeNum(Num(v, w) + rest, w) == Some((v, rest))
  {
    BytesRoundTrip(v, w.Size());
    assert (Num(v, w) + rest)[..w.Size()] == Num(v, w);
    assert (Num(v, w) + rest)[w.Size()..] == rest;
  }

  lemma {:induction false} TakeFirstOf(vs: seq<nat>, w: Width, rest: seq<Byte>)
    requires Below(vs, w.Bound()) && vs != []
    ensures TakeNum(Many(vs, w) + rest, w) == Some((vs[0], Many(vs[1..], w) + rest))
  {
    Assoc(Num(vs[0], w), Many(vs[1..], w), rest);
    TakeNumOf(vs[0], w, Many(vs[1..], w) + rest);
  }

  /** A list of numbers is read back and the bytes behind it are left. */
  lemma {:induction false} TakeManyOf(vs: seq<nat>, w: Width, rest: seq<Byte>)
    requires Below(vs, w.Bound())
    ensures TakeMany(Many(vs, w) + rest, w, |vs|) == Some((vs, rest))
  {
    if vs == [] {
      assert [] + rest == rest;
    } else {
      TakeFirstOf(vs, w, rest);
      TakeManyOf(vs[1..], w, rest);
      assert [vs[0]] + vs[1..] == vs;
    }
  }

  lemma {:induction false} TakeIdsOf(flag: Word, range: nat, ids: seq<nat>, rest: seq<Byte>)
    requires range < 32 && ids != [] && Below(ids, W16.Bound())
    requires flag[range] ==> ids == Range(ids[0], |ids|)
    ensures TakeIds(flag, range, IdBytes(flag, range, ids) + rest, |ids|) == Some((ids, rest))
  {
    if flag[range] { TakeNumOf(ids[0], W16, rest); } else { TakeManyOf(ids, W16, rest); }
  }

  lemma TakeTimesOf(flag: Word, times: seq<nat>, len: nat, rest: seq<Byte>)
    requires Below(times, W64.Bound()) && (if flag[WITH_TIME] then |times| == len else times == [])
    ensures TakeTimes(flag, TimeBytes(flag, times) + rest, len) == Some((times, rest))
  {
    if flag[WITH_TIME] { TakeManyOf(times, W64, rest); } else { assert [] + rest == rest; }
  }

  /** An ack list is read back whole: ids, times, and the bytes behind them. */
  lemma TakeAcksOf(flag: Word, present: nat, range: nat, a: Acks, rest: seq<Byte>)
    requires present < 32 && range < 32 && AcksFit(flag, present, range, a) && AcksInWidth(a)
    ensures TakeAcks(flag, present, range, AckBytes(flag, present, range, a) + rest) == Some((a, rest))
  {
    if !flag[present] {
      assert [] + rest == rest;
    } else {
      assert Cut(a.ids) == a.ids && TimesSent(a) == a.times[..|a.times|] == a.times;
      var b2 := TimeBytes(flag, a.times) + rest;
      var b1 := IdBytes(flag, range, a.ids) + b2;
      assert AckBytes(flag, present, range, a) + rest == Num(|a.ids|, W16) + b1;
      Bounds();
      TakeNumOf(|a.ids|, W16, b1);
      TakeIdsOf(flag, range, a.ids, b2);
      TakeTimesOf(flag, a.times, |a.ids|, rest);
    }
  }

  lemma TakeFlaggedOf(flagged: bool, v: nat, stale: nat, w: Width, rest: seq<Byte>)
    requires v < w.Bound()
    ensures TakeFlagged(flagged, stale, Flagged(flagged, v, w) + rest, w)
            == Some((if flagged then v else stale, rest))
  {
    if flagged { TakeNumOf(v, w, rest); } else { assert [] + rest == rest; }
  }

  lemma {:induction false} TakeFlagOf(flag: Word, rest: seq<Byte>)
    ensures TakeFlag(Num(BitsValue(flag), W32) + rest) == (flag, rest)
  {
    WordFits(flag);
    TakeNumOf(BitsValue(flag), W32, rest);
  }

  lemma TakeListsOf(h: Header, body: seq<Byte>, rest: seq<Byte>)
    requires WellFormed(h, body)
    ensures TakeLists(h.flag, OrderlyBytes(h) + (ReliableBytes(h) + rest)) == Some((h.orderly, h.reliable, rest))
  {
    TakeAcksOf(h.flag, WITH_ORDERLY_ACK, ORDERLY_ACK_RANGE, h.orderly, ReliableBytes(h) + rest);
    TakeAcksOf(h.flag, WITH_RELIABLE_ACK, RELIABLE_ACK_RANGE, h.reliable, rest);
  }

  lemma Regroup(a: seq<Byte>, b: seq<Byte>, c: seq<Byte>, d: seq<Byte>, e: seq<Byte>, f: seq<Byte>, g: seq<Byte>)
    ensures a + b + c + d + e + f + g == a + (b + (c + (d + (e + (f + g)))))
  {
    assert a + b + c + (d + e + f + g) == a + (b + (c + (d + (e + (f + g)))));
  }

  /** The header a reader ends up with: the sender's, but for the fields the sender did not
      send, which keep what the reader's header held. */
  function Over(stale: Header, h: Header): Header {
    h.(id := if h.flag[WITH_ID] then h.id else stale.id,
       sendTime := if h.flag[WITH_TIME] then h.sendTime else stale.sendTime,
       bodyLen := if h.flag[WITH_BODY] then h.bodyLen else stale.bodyLen,
       orderly := Merged(stale.orderly, h.orderly), reliable := Merged(stale.reliable, h.reliable))
  }

  lemma TakeFrontOf(stale: Header, h: Header, rest: seq<Byte>)
    requires InWidth(h)
    ensures var f := h.flag;
            TakeFront(f, stale, Flagged(f[WITH_ID], h.id, W16) + (Flagged(f[WITH_TIME], h.sendTime, W64) + rest))
            == Some((Over(stale, h).id, Over(stale, h).sendTime, rest))
  {
    TakeFlaggedOf(h.flag[WITH_ID], h.id, stale.id, W16, Flagged(h.flag[WITH_TIME], h.sendTime, W64) + rest);
    TakeFlaggedOf(h.flag[WITH_TIME], h.sendTime, stale.sendTime, W64, rest);
  }

  lemma TakeBackOf(stale: Header, h: Header, body: seq<Byte>)
    requires WellFormed(h, body)
    ensures var f := h.flag;
            TakeBack(f, stale, OrderlyBytes(h) + (ReliableBytes(h) + (Flagged(f[WITH_BODY], h.bodyLen, W16) + body)))
            == Some((Over(stale, h).orderly, Over(stale, h).reliable, Over(stale, h).bodyLen, body))
  {
    TakeListsOf(h, body, Flagged(h.flag[WITH_BODY], h.bodyLen, W16) + body);
    TakeFlaggedOf(h.flag[WITH_BODY], h.bodyLen, stale.bodyLen, W16, body);
  }

  /** Writing a header and reading it over `stale` gives the header laid over `stale`. */
  lemma TakeHeadOf(stale: Header, h: Header, body: seq<Byte>)
    requires WellFormed(h, body)
    ensures TakeHead(stale, HeadBytes(h) + body) == Some((Over(stale, h), body))
  {
    var f := h.flag;
    var b2 := OrderlyBytes(h) + (ReliableBytes(h) + (Flagged(f[WITH_BODY], h.bodyLen, W16) + body));
    var b0 := Flagged(f[WITH_ID], h.id, W16) + (Flagged(f[WITH_TIME], h.sendTime, W64) + b2);
    Regroup(Num(BitsValue(f), W32), Flagged(f[WITH_ID], h.id, W16), Flagged(f[WITH_TIME], h.sendTime, W64),
            OrderlyBytes(h), ReliableBytes(h), Flagged(f[WITH_BODY], h.bodyLen, W16), body);
    TakeFlagOf(f, b0);
    TakeFrontOf(stale, h, b2);
    TakeBackOf(stale, h, body);
  }

  // ---------------------------------------------------------------- the size

  function ListSize(asRange: bool, len: nat): nat {
    if len == 0 then 0 else if asRange then 2 + 2 else 2 + 2 * len
  }

  function AckSize(flag: Word, present: nat, range: nat, a: Acks): nat
    requires present < 32 && range < 32
  {
    if !flag[present] then 0
    else
      var len := |a.ids| % UINT16;
      ListSize(flag[range], len) + if flag[WITH_TIME] then 8 * len else 0
  }

  /** The size predicted for a message from its header alone. */
  function EstimateSize(h: Header): nat {
    4
    + (if h.flag[WITH_ID] then 2 else 0)
    + (if h.flag[WITH_TIME] then 8 else 0)
    + AckSize(h.flag, WITH_ORDERLY_ACK, ORDERLY_ACK_RANGE, h.orderly)
    + AckSize(h.flag, WITH_RELIABLE_ACK, RELIABLE_ACK_RANGE, h.reliable)
    + if h.flag[WITH_BODY] then 2 + h.bodyLen else 0
  }

  lemma {:induction false} IdsSize(vs: seq<nat>)
    ensures |Many(vs, W16)| == 2 * |vs|
  {
    if vs != [] { IdsSize(vs[1..]); }
  }

  lemma {:induction false} TimesSize(vs: seq<nat>)
    ensures |Many(vs, W64)| == 8 * |vs|
  {
    if vs != [] { TimesSize(vs[1..]); }
  }

  lemma ListSizeIsExact(flag: Word, range: nat, ids: seq<nat>)
    requires range < 32 && |ids| < UINT16
    ensures |ListBytes(flag, range, ids)| == ListSize(flag[range], |ids|)
  {
    IdsSize(ids);
  }

  lemma TimeBytesSize(flag: Word, times: seq<nat>)
    ensures |TimeBytes(flag, times)| == if flag[WITH_TIME] then 8 * |times| else 0
  {
    TimesSize(times);
  }

  lemma AckParts(flag: Word, present: nat, range: nat, a: Acks)
    requires present < 32 && range < 32
    ensures |AckBytes(flag, present, range, a)|
            == if flag[present] then |ListBytes(flag, range, Cut(a.ids))| + |TimeBytes(flag, TimesSent(a))| else 0
  {
  }

  lemma AckSizeIsExact(flag: Word, present: nat, range: nat, a: Acks)
    requires present < 32 && range < 32 && Timed(flag, present, a)
    ensures |AckBytes(flag, present, range, a)| == AckSize(flag, present, range, a)
  {
    AckParts(flag, present, range, a);
    ListSizeIsExact(flag, range, Cut(a.ids));
    TimeBytesSize(flag, TimesSent(a));
  }

  /** The prediction is the header's length plus the body it announces. */
  lemma EstimateIsExact(h: Header)
    requires Serializable(h)
    ensures EstimateSize(h) == |HeadBytes(h)| + if h.flag[WITH_BODY] then h.bodyLen else 0
  {
    AckSizeIsExact(h.flag, WITH_ORDERLY_ACK, ORDERLY_ACK_RANGE, h.orderly);
    AckSizeIsExact(h.flag, WITH_RELIABLE_ACK, RELIABLE_ACK_RANGE, h.reliable);
  }

  /** For a well-formed message the prediction is the packet's length, so the message is sent
      exactly when the prediction is within the MTU. */
  lemma SentIffEstimateFits(h: Header, body: seq<Byte>)
    requires WellFormed(h, body)
    ensures Packet(h, body) == HeadBytes(h) + body && |Packet(h, body)| == EstimateSize(h)
    ensures Sent(h, body) != [] <==> EstimateSize(h) <= MTU
  {
    EstimateIsExact(h);
    Bounds();
    assert Cut(body) == body && WithBody(h, |body|) == h;
  }

  // ---------------------------------------------------------------- the round trip

  /** A header after Clear: everything but the send time is fresh. */
  predicate Cleared(h: Header) {
    h.flag == NoFlags() && h.id == 0 && h.bodyLen == 0 && h.orderly == NO_ACKS && h.reliable == NO_ACKS
  }

  lemma DeserializedOf(stale: Header, h: Header, body: seq<Byte>)
    requires WellFormed(h, body) && Cleared(stale)
    ensures Deserialized(stale, HeadBytes(h) + body) == Some((Over(stale, h), body))
  {
    TakeHeadOf(stale, h, body);
    assert body[..|body|] == body;
    assert Over(stale, h).bodyLen == |body|;
  }

  lemma LoadedWhole(packet: seq<Byte>)
    requires |packet| <= MTU
    ensures Loaded(packet) == packet
  {
  }

  lemma FittingMessageComesBack(stale: Header, h: Header, body: seq<Byte>)
    requires WellFormed(h, body) && Cleared(stale) && EstimateSize(h) <= MTU
    ensures Received(stale, Sent(h, body)) == Some((Over(stale, h), body))
  {
    SentIffEstimateFits(h, body);
    LoadedWhole(HeadBytes(h) + body);
    DeserializedOf(stale, h, body);
  }

  /** Bytes in which no flag can be read: fewer than four, or four zeros. */
  predicate Flagless(b: seq<Byte>) { |b| < 4 || b[..4] == [0, 0, 0, 0] }

  lemma NoFlagsIff(b: seq<Byte>)
    ensures TakeFlag(b).0 == NoFlags() <==> Flagless(b)
  {
    if |b| >= 4 {
      var v := FromBytes(b[..4]);
      FromBytesFits(b[..4]);
      Power2Is256(4);
      ZeroBits(v, 32);
      ZeroBytes(b[..4]);
      assert TakeFlag(b).0 == ValueBits(v, 32);
      assert v == 0 ==> forall k :: 0 <= k < 32 ==> !ValueBits(v, 32)[k];
      assert v == 0 ==> ValueBits(v, 32) == NoFlags();
    }
  }

  lemma NoFlagsIsEmpty(stale: Header, b: seq<Byte>)
    requires Cleared(stale)
    ensures Deserialized(stale, b) == Some((stale, [])) <==> TakeFlag(b).0 == NoFlags()
  {}

  lemma LoadedFlagless(packet: seq<Byte>)
    ensures Flagless(Loaded(packet)) <==> |packet| % UINT16 > MTU || |packet| % UINT16 < 4 || Flagless(packet)
  {
    if 4 <= |packet| % UINT16 <= MTU { assert Loaded(packet)[..4] == packet[..4]; }
  }

  /** Exactly which packets are taken for an empty message: those whose length, cut to 16 bits, is
      over the MTU, of which nothing is loaded, or under four, and those that start with four zeros. */
  lemma EmptyMessageIff(stale: Header, packet: seq<Byte>)
    requires Cleared(stale)
    ensures Received(stale, packet) == Some((stale, []))
            <==> |packet| % UINT16 > MTU || |packet| % UINT16 < 4 || packet[..4] == [0, 0, 0, 0]
  {
    NoFlagsIsEmpty(stale, Loaded(packet));
    NoFlagsIff(Loaded(packet));
    LoadedFlagless(packet);
  }

  lemma BlankMessageIsSmall(h: Header)
    requires h.flag == NoFlags()
    ensures EstimateSize(h) == 4
  {
  }

  lemma OversizedMessageIsLost(stale: Header, h: Header, body: seq<Byte>)
    requires WellFormed(h, body) && Cleared(stale) && EstimateSize(h) > MTU
    ensures Received(stale, Sent(h, body)) == Some((stale, [])) && stale != Over(stale, h)
  {
    SentIffEstimateFits(h, body);
    EmptyMessageIff(stale, []);
    if h.flag == NoFlags() { BlankMessageIsSmall(h); }
  }

  /** Sending a message and receiving it into a cleared header recovers flag, id, both ack
      lists with their times, and the body exactly when the message fits the MTU. The send
      time comes back too when it was sent; otherwise the receiver's old one stays. */
  lemma RoundTripIff(stale: Header, h: Header, body: seq<Byte>)
    requires WellFormed(h, body) && Cleared(stale)
    ensures Received(stale, Sent(h, body)) == Some((Over(stale, h), body)) <==> EstimateSize(h) <= MTU
    ensures Over(stale, h) == if h.flag[WITH_TIME] then h else h.(sendTime := stale.sendTime)
  {
    if EstimateSize(h) <= MTU { FittingMessageComesBack(stale, h, body); } else { OversizedMessageIsLost(stale, h, body); }
  }

  /** A fresh header recovers the whole message. */
  lemma RoundTrip(h: Header, body: seq<Byte>)
    requires WellFormed(h, body) && EstimateSize(h) <= MTU && (!h.flag[WITH_TIME] ==> h.sendTime == 0)
    ensures Received(FRESH, Sent(h, body)) == Some((h, body))
  {
    RoundTripIff(FRESH, h, body);
  }
}
