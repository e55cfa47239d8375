/** The serializer of common/Serializes.cpp, field by field over the byte streams, proved to
    write and read exactly the format of Wire.dfy. */
module Serializes {
  import opened Bytes
  import opened Common
  import opened Wire
  import opened BitStream
  import opened MsgHead

  // ---------------------------------------------------------------- writing

  method WriteFlagged(flagged: bool, v: nat, w: Width, s: BitStreamWriter) returns (ok: bool)
    requires s.Valid()
    modifies s`curPoint, s`curLength, s.data
    ensures s.Valid() && Appended(old(s.Contents()), Flagged(flagged, v, w), s.Contents(), ok)
  {
    if flagged { ok := s.WriteNum(v, w); } else { return true; }
  }

  /** The bytes of a list, cut in front of entry `i`. */
  lemma {:induction false} ManyFrom(vs: seq<nat>, w: Width, i: nat)
    requires i < |vs|
    ensures Many(vs[i..], w) == Num(vs[i], w) + Many(vs[i + 1..], w)
  {
    assert vs[i..][1..] == vs[i + 1..];
  }

  /** One number after another, up to the first that does not fit. */
  method WriteMany(vs: seq<nat>, w: Width, s: BitStreamWriter) returns (ok: bool)
    requires s.Valid()
    modifies s`curPoint, s`curLength, s.data
    ensures s.Valid() && Appended(old(s.Contents()), Many(vs, w), s.Contents(), ok)
  {
    var i := 0;
    while i < |vs|
      invariant 0 <= i <= |vs| && s.Valid()
      invariant old(s.Contents()) <= s.Contents()
      invariant old(s.Contents()) + Many(vs, w) == s.Contents() + Many(vs[i..], w)
    {
      ManyFrom(vs, w, i);
      assert s.Contents() + Many(vs[i..], w) == (s.Contents() + Num(vs[i], w)) + Many(vs[i + 1..], w);
      ok := s.WriteNum(vs[i], w);
      if !ok { return false; }
      i := i + 1;
    }
    return true;
  }

  method WriteIds(flag: Word, range: nat, ids: seq<nat>, s: BitStreamWriter) returns (ok: bool)
    requires s.Valid() && range < 32 && ids != []
    modifies s`curPoint, s`curLength, s.data
    ensures s.Valid() && Appended(old(s.Contents()), IdBytes(flag, range, ids), s.Contents(), ok)
  {
    if flag[range] { ok := s.WriteNum(ids[0], W16); } else { ok := WriteMany(ids, W16, s); }
  }

  method WriteList(flag: Word, range: nat, ids: seq<nat>, s: BitStreamWriter) returns (ok: bool)
    requires s.Valid() && range < 32 && |ids| < UINT16
    modifies s`curPoint, s`curLength, s.data
    ensures s.Valid() && Appended(old(s.Contents()), ListBytes(flag, range, ids), s.Contents(), ok)
  {
    ghost var before := s.Contents();
    if |ids| == 0 { return true; }
    ok := s.WriteNum(|ids|, W16);
    ghost var middle := s.Contents();
    if !ok {
      AppendStopsShort(before, Num(|ids|, W16), middle, IdBytes(flag, range, ids));
      return;
    }
    ok := WriteIds(flag, range, ids, s);
    AppendedInTurn(before, Num(|ids|, W16), middle, IdBytes(flag, range, ids), s.Contents(), ok);
  }

  method WriteTimes(flag: Word, times: seq<nat>, s: BitStreamWriter) returns (ok: bool)
    requires s.Valid()
    modifies s`curPoint, s`curLength, s.data
    ensures s.Valid() && Appended(old(s.Contents()), TimeBytes(flag, times), s.Contents(), ok)
  {
    if flag[WITH_TIME] { ok := WriteMany(times, W64, s); } else { return true; }
  }

  method WriteAcks(flag: Word, present: nat, range: nat, a: Acks, s: BitStreamWriter) returns (ok: bool)
    requires s.Valid() && present < 32 && range < 32 && Timed(flag, present, a)
    modifies s`curPoint, s`curLength, s.data
    ensures s.Valid() && Appended(old(s.Contents()), AckBytes(flag, present, range, a), s.Contents(), ok)
  {
    ghost var before := s.Contents();
    if !flag[present] { return true; }
    var len := |a.ids| % UINT16;
    var ids := a.ids[..len];
    assert ids == Cut(a.ids) && (flag[WITH_TIME] ==> a.times[..len] == TimesSent(a));
    ok := WriteList(flag, range, ids, s);
    ghost var middle := s.Contents();
    if !ok {
      AppendStopsShort(before, ListBytes(flag, range, ids), middle, TimeBytes(flag, TimesSent(a)));
      return;
    }
    ok := WriteTimes(flag, if flag[WITH_TIME] then a.times[..len] else [], s);
    AppendedInTurn(before, ListBytes(flag, range, ids), middle, TimeBytes(flag, TimesSent(a)), s.Contents(), ok);
  }

  /** The fixed fields in front of the ack lists. */
  function FixedBytes(h: Header): seq<Byte> {
    Num(BitsValue(h.flag), W32)
    + Flagged(h.flag[WITH_ID], h.id, W16)
    + Flagged(h.flag[WITH_TIME], h.sendTime, W64)
  }

  /** On an empty stream these always fit, so the early exits are never taken. */
  method WriteFixed(h: Header, s: BitStreamWriter)
    requires s.Valid() && s.Contents() == []
    modifies s`curPoint, s`curLength, s.data
    ensures s.Valid() && s.Contents() == FixedBytes(h)
  {
    var ok := s.WriteNum(BitsValue(h.flag), W32);
    ok := WriteFlagged(h.flag[WITH_ID], h.id, W16, s);
    ok := WriteFlagged(h.flag[WITH_TIME], h.sendTime, W64, s);
  }

  /** The acks and the body length behind the fixed fields. */
  method WriteRest(h: Header, s: BitStreamWriter) returns (ok: bool)
    requires s.Valid() && s.Contents() == FixedBytes(h) && Serializable(h)
    modifies s`curPoint, s`curLength, s.data
    ensures s.Valid() && Appended([], HeadBytes(h), s.Contents(), ok)
  {
    ghost var x := FixedBytes(h);
    ghost var y := x + OrderlyBytes(h);
    ghost var z := y + ReliableBytes(h);
    ghost var len := Flagged(h.flag[WITH_BODY], h.bodyLen, W16);
    ok := WriteAcks(h.flag, WITH_ORDERLY_ACK, ORDERLY_ACK_RANGE, h.orderly, s);
    AppendedInTurn([], x, x, OrderlyBytes(h), s.Contents(), ok);
    if !ok {
      AppendStopsShort([], y, s.Contents(), ReliableBytes(h));
      AppendStopsShort([], z, s.Contents(), len);
      return;
    }
    ok := WriteAcks(h.flag, WITH_RELIABLE_ACK, RELIABLE_ACK_RANGE, h.reliable, s);
    AppendedInTurn([], y, y, ReliableBytes(h), s.Contents(), ok);
    if !ok {
      AppendStopsShort([], z, s.Contents(), len);
      return;
    }
    ok := WriteFlagged(h.flag[WITH_BODY], h.bodyLen, W16, s);
    AppendedInTurn([], z, z, len, s.Contents(), ok);
  }

  /** The header, which must come first: anything in the stream already is a failure. */
  method SerializesHead(head: Head, s: BitStreamWriter) returns (ok: bool)
    requires s.Valid() && Serializable(head.Value())
    modifies s`curPoint, s`curLength, s.data
    ensures s.Valid()
    ensures if old(s.Contents()) == [] then Appended([], HeadBytes(head.Value()), s.Contents(), ok)
            else !ok && s.Contents() == old(s.Contents())
  {
    if s.curLength > 0 { return false; }
    WriteFixed(head.Value(), s);
    ok := WriteRest(head.Value(), s);
  }

  /** A whole message: on an empty stream its packet, exactly when that is within the MTU, and on
      any other a failure. The body length is noted in the header either way. */
  method Serialize(head: Head, body: seq<Byte>, s: BitStreamWriter) returns (ok: bool)
    requires s.Valid() && Serializable(head.Value())
    modifies s`curPoint, s`curLength, s.data, head`bodyLen, head`flag
    ensures s.Valid() && head.Value() == WithBody(old(head.Value()), |Cut(body)|)
    ensures if old(s.Contents()) == [] then Appended([], Packet(old(head.Value()), body), s.Contents(), ok)
            else !ok && s.Contents() == old(s.Contents())
  {
    var len := |body| % UINT16;
    if len > 0 { head.SetBodyLength(len); }
    ghost var bytes := HeadBytes(head.Value());
    ok := SerializesHead(head, s);
    ghost var middle := s.Contents();
    if !ok {
      AppendFails(bytes, middle, body[..len]);
      return;
    }
    ok := s.Write(body[..len]);
    AppendedInTurn([], bytes, middle, body[..len], s.Contents(), ok);
  }

  lemma AppendFails(x: seq<Byte>, b: seq<Byte>, y: seq<Byte>)
    ensures Appended([], x, b, false) ==> Appended([], x + y, b, false)
  {
    if Appended([], x, b, false) { AppendStopsShort([], x, b, y); }
  }

  /** The packet of a message, or no bytes when it does not fit. */
  method GetSerializeBuffer(head: Head, body: seq<Byte>) returns (packet: seq<Byte>)
    requires Serializable(head.Value())
    modifies head`bodyLen, head`flag
    ensures packet == Sent(old(head.Value()), body)
    ensures head.Value() == WithBody(old(head.Value()), |Cut(body)|)
  {
    var stream := new BitStreamWriter();
    var ok := Serialize(head, body, stream);
    if !ok { return []; }
    packet := stream.data[..stream.curLength];
  }

  // ---------------------------------------------------------------- reading

  method ReadFlag(s: BitStreamReader) returns (flag: Word)
    requires s.Valid()
    modifies s`curPoint
    ensures s.Valid() && TakeFlag(old(s.Left())) == (flag, s.Left())
  {
    var ok, v := s.ReadNum(W32);
    flag := if ok then ValueBits(v, 32) else NoFlags();
  }

  /** As many numbers as asked for, or a failure at the first that is not there. */
  method ReadMany(w: Width, k: nat, s: BitStreamReader) returns (ok: bool, vs: seq<nat>)
    requires s.Valid()
    modifies s`curPoint
    ensures s.Valid() && (ok <==> TakeMany(old(s.Left()), w, k).Some?)
    ensures ok ==> TakeMany(old(s.Left()), w, k) == Some((vs, s.Left()))
  {
    vs := [];
    var i := 0;
    BeforeNothing(TakeMany(s.Left(), w, k));
    while i < k
      invariant 0 <= i <= k && s.Valid()
      invariant TakeMany(old(s.Left()), w, k) == Before(vs, TakeMany(s.Left(), w, k - i))
    {
      ghost var left := s.Left();
      var v;
      ok, v := s.ReadNum(w);
      if !ok { return; }
      BeforeBefore(vs, [v], TakeMany(s.Left(), w, k - i - 1));
      vs := vs + [v];
      i := i + 1;
    }
    ok := true;
    assert vs + [] == vs;
  }

  lemma BeforeNothing(r: Option<(seq<nat>, seq<Byte>)>)
    ensures Before([], r) == r
  {
    if r.Some? { assert [] + r.value.0 == r.value.0; }
  }

  lemma BeforeBefore(x: seq<nat>, y: seq<nat>, r: Option<(seq<nat>, seq<Byte>)>)
    ensures Before(x, Before(y, r)) == Before(x + y, r)
  {
    if r.Some? { assert x + (y + r.value.0) == (x + y) + r.value.0; }
  }

  method ReadIds(flag: Word, range: nat, len: nat, s: BitStreamReader) returns (ok: bool, ids: seq<nat>)
    requires s.Valid() && range < 32
    modifies s`curPoint
    ensures s.Valid() && (ok <==> TakeIds(flag, range, old(s.Left()), len).Some?)
    ensures ok ==> TakeIds(flag, range, old(s.Left()), len) == Some((ids, s.Left()))
  {
    if !flag[range] {
      ok, ids := ReadMany(W16, len, s);
    } else {
      var first;
      ok, first := s.ReadNum(W16);
      ids := [];
      var i := 0;
      while ok && i < len
        invariant 0 <= i <= len && (ok ==> ids == Range(first, i))
      {
        ids := ids + [(first + i) % UINT16];
        i := i + 1;
      }
    }
  }

  method ReadTimes(flag: Word, len: nat, s: BitStreamReader) returns (ok: bool, times: seq<nat>)
    requires s.Valid()
    modifies s`curPoint
    ensures s.Valid() && (ok <==> TakeTimes(flag, old(s.Left()), len).Some?)
    ensures ok ==> TakeTimes(flag, old(s.Left()), len) == Some((times, s.Left()))
  {
    if flag[WITH_TIME] { ok, times := ReadMany(W64, len, s); } else { return true, []; }
  }

  /** One ack list of the stream. A failure in the times leaves the ids read. */
  method ReadAcks(flag: Word, present: nat, range: nat, s: BitStreamReader) returns (ok: bool, a: Acks)
    requires s.Valid() && present < 32 && range < 32
    modifies s`curPoint
    ensures s.Valid() && (ok <==> TakeAcks(flag, present, range, old(s.Left())).Some?)
    ensures ok ==> TakeAcks(flag, present, range, old(s.Left())) == Some((a, s.Left()))
    ensures a == AcksRead(flag, present, range, old(s.Left()))
  {
    a := NO_ACKS;
    if !flag[present] { return true, a; }
    var len, ids, times;
    ok, len := s.ReadNum(W16);
    if !ok { return; }
    ok, ids := ReadIds(flag, range, len, s);
    if !ok { return; }
    ok, times := ReadTimes(flag, len, s);
    a := Acks(ids, if ok then times else []);
  }

  /** Adding what was read to a header already flagged for it: a list that is there stays. */
  method AddOrderly(a: Acks, head: Head)
    requires head.flag[WITH_ORDERLY_ACK] && (a.times != [] ==> head.flag[WITH_TIME])
    modifies head`ackReliableOrderlyVec, head`reliableOrderlyMsgSendTimeVec, head`flag
    ensures head.Value() == old(head.Value()).(orderly := Merged(old(head.Value()).orderly, a))
  {
    var _ := head.AddReliableOrderlyAck(a.ids, head.flag[ORDERLY_ACK_RANGE]);
    if head.flag[WITH_TIME] { var _ := head.AddReliableOrderlyAckTime(a.times); }
  }

  method AddReliable(a: Acks, head: Head)
    requires head.flag[WITH_RELIABLE_ACK] && (a.times != [] ==> head.flag[WITH_TIME])
    modifies head`ackReliableVec, head`reliableMsgSendTimeVec, head`flag
    ensures head.Value() == old(head.Value()).(reliable := Merged(old(head.Value()).reliable, a))
  {
    var _ := head.AddReliableAck(a.ids, head.flag[RELIABLE_ACK_RANGE]);
    if head.flag[WITH_TIME] { var _ := head.AddReliableAckTime(a.times); }
  }

  /** Both ack lists, over what the header has. */
  method ReadLists(head: Head, s: BitStreamReader) returns (ok: bool)
    requires s.Valid()
    modifies s`curPoint, head`ackReliableOrderlyVec, head`reliableOrderlyMsgSendTimeVec
    modifies head`ackReliableVec, head`reliableMsgSendTimeVec, head`flag
    ensures s.Valid() && (ok <==> TakeLists(old(head.flag), old(s.Left())).Some?)
    ensures ok ==> var acks := TakeLists(old(head.flag), old(s.Left())).value;
      && acks.2 == s.Left() && head.flag == old(head.flag)
      && head.Value().orderly == Merged(old(head.Value()).orderly, acks.0)
      && head.Value().reliable == Merged(old(head.Value()).reliable, acks.1)
    ensures head.Value() == ListsRead(old(head.Value()), old(s.Left()))
  {
    ghost var h := head.Value();
    var orderly, reliable;
    ok, orderly := ReadAcks(head.flag, WITH_ORDERLY_ACK, ORDERLY_ACK_RANGE, s);
    if head.flag[WITH_ORDERLY_ACK] { AddOrderly(orderly, head); }
    assert head.Value() == h.(orderly := Merged(h.orderly, orderly));
    if !ok { return; }
    ok, reliable := ReadAcks(head.flag, WITH_RELIABLE_ACK, RELIABLE_ACK_RANGE, s);
    if head.flag[WITH_RELIABLE_ACK] { AddReliable(reliable, head); }
    assert head.Value() == h.(orderly := Merged(h.orderly, orderly), reliable := Merged(h.reliable, reliable));
  }

  method ReadId(head: Head, s: BitStreamReader) returns (ok: bool)
    requires s.Valid()
    modifies s`curPoint, head`id, head`flag
    ensures s.Valid() && head.flag == old(head.flag)
    ensures ok <==> TakeFlagged(head.flag[WITH_ID], old(head.id), old(s.Left()), W16).Some?
    ensures ok ==> TakeFlagged(head.flag[WITH_ID], old(head.id), old(s.Left()), W16) == Some((head.id, s.Left()))
    ensures !ok ==> head.id == old(head.id)
  {
    if !head.flag[WITH_ID] { return true; }
    var v;
    ok, v := s.ReadNum(W16);
    if ok { head.SetId(v); }
  }

  method ReadTime(head: Head, s: BitStreamReader) returns (ok: bool)
    requires s.Valid()
    modifies s`curPoint, head`sendTime
    ensures s.Valid()
    ensures ok <==> TakeFlagged(head.flag[WITH_TIME], old(head.sendTime), old(s.Left()), W64).Some?
    ensures ok ==> TakeFlagged(head.flag[WITH_TIME], old(head.sendTime), old(s.Left()), W64)
                   == Some((head.sendTime, s.Left()))
    ensures !ok ==> head.sendTime == old(head.sendTime)
  {
    if !head.flag[WITH_TIME] { return true; }
    var v;
    ok, v := s.ReadNum(W64);
    if ok { head.SetSendTime(v); }
  }

  method ReadFront(head: Head, s: BitStreamReader) returns (ok: bool)
    requires s.Valid()
    modifies s`curPoint, head`id, head`sendTime, head`flag
    ensures s.Valid() && head.flag == old(head.flag)
    ensures ok <==> TakeFront(head.flag, old(head.Value()), old(s.Left())).Some?
    ensures ok ==> TakeFront(head.flag, old(head.Value()), old(s.Left())) == Some((head.id, head.sendTime, s.Left()))
    ensures head.Value() == FrontRead(old(head.Value()), old(s.Left()))
  {
    ok := ReadId(head, s);
    if !ok { return; }
    ok := ReadTime(head, s);
  }

  method ReadBodyLen(head: Head, s: BitStreamReader) returns (ok: bool)
    requires s.Valid()
    modifies s`curPoint, head`bodyLen, head`flag
    ensures s.Valid() && head.flag == old(head.flag)
    ensures ok <==> TakeFlagged(head.flag[WITH_BODY], old(head.bodyLen), old(s.Left()), W16).Some?
    ensures ok ==> TakeFlagged(head.flag[WITH_BODY], old(head.bodyLen), old(s.Left()), W16)
                   == Some((head.bodyLen, s.Left()))
    ensures !ok ==> head.bodyLen == old(head.bodyLen)
  {
    if !head.flag[WITH_BODY] { return true; }
    var v;
    ok, v := s.ReadNum(W16);
    if ok { head.SetBodyLength(v); }
  }

  method ReadBack(head: Head, s: BitStreamReader) returns (ok: bool)
    requires s.Valid()
    modifies s`curPoint, head`ackReliableOrderlyVec, head`reliableOrderlyMsgSendTimeVec
    modifies head`ackReliableVec, head`reliableMsgSendTimeVec, head`flag, head`bodyLen
    ensures s.Valid() && (ok <==> TakeBack(old(head.flag), old(head.Value()), old(s.Left())).Some?)
    ensures ok ==> head.flag == old(head.flag)
    ensures ok ==> TakeBack(old(head.flag), old(head.Value()), old(s.Left()))
                   == Some((head.Value().orderly, head.Value().reliable, head.bodyLen, s.Left()))
    ensures head.Value() == BackRead(old(head.Value()), old(s.Left()))
  {
    ok := ReadLists(head, s);
    if !ok { return; }
    ok := ReadBodyLen(head, s);
  }

  /** The header, read over whatever the one given holds. A failure leaves in it what came before. */
  method DeserialiHead(s: BitStreamReader, head: Head) returns (ok: bool)
    requires s.Valid()
    modifies s`curPoint, head
    ensures s.Valid() && (ok <==> TakeHead(old(head.Value()), old(s.Left())).Some?)
    ensures ok ==> TakeHead(old(head.Value()), old(s.Left())) == Some((head.Value(), s.Left()))
    ensures head.Value() == HeadRead(old(head.Value()), old(s.Left()))
  {
    var flag := ReadFlag(s);
    head.SetFlag(flag);
    ok := ReadFront(head, s);
    if !ok { return; }
    ok := ReadBack(head, s);
  }

  /** The header and the body. `was` is the body the message has, which stays when none is read. */
  method Deseriali(s: BitStreamReader, head: Head, was: seq<Byte>) returns (ok: bool, body: seq<Byte>)
    requires s.Valid()
    modifies s`curPoint, head
    ensures s.Valid() && (ok <==> Deserialized(old(head.Value()), old(s.Left())).Some?)
    ensures ok ==> Deserialized(old(head.Value()), old(s.Left())) == Some((head.Value(), body))
    ensures head.Value() == HeadRead(old(head.Value()), old(s.Left()))
    ensures !ok ==> body == was
  {
    body := was;
    ok := DeserialiHead(s, head);
    if !ok { return; }
    ghost var left := s.Left();
    var taken;
    ok, taken := s.Read(head.bodyLen);
    if ok {
      assert left[..head.bodyLen] == taken;
      body := taken;
    }
  }

  /** A received packet, its length cut to 16 bits. */
  method InitWithBuffer(packet: seq<Byte>, head: Head, was: seq<Byte>) returns (ok: bool, body: seq<Byte>)
    modifies head
    ensures ok <==> Received(old(head.Value()), packet).Some?
    ensures ok ==> Received(old(head.Value()), packet) == Some((head.Value(), body))
    ensures head.Value() == HeadRead(old(head.Value()), Loaded(packet))
    ensures !ok ==> body == was
  {
    var stream := new BitStreamReader();
    var _ := stream.Init(packet[..|packet| % UINT16]);
    ok, body := Deseriali(stream, head, was);
  }
}
