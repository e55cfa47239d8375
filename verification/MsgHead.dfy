/** The message header of common/MsgHead.cpp: setters that keep its flag word in step with its
    fields. The value it stands for is the Header of Wire.dfy. */
module MsgHead {
  import opened Bytes
  import opened Wire

  function Marked(flag: Word, bit: nat, on: bool): Word
    requires bit < 32
  {
    if on then flag[bit := true] else flag
  }

  /** A header with an ack list added: refused when it has one or the list is empty. */
  function WithAck(h: Header, present: nat, range: nat, a: Acks, ids: seq<nat>, continueRange: bool): (Word, Acks)
    requires present < 32 && range < 32
  {
    if a.ids != [] || ids == [] then (h.flag, a)
    else (Marked(Marked(h.flag, range, continueRange), present, true), a.(ids := ids))
  }

  function WithAckTime(h: Header, a: Acks, times: seq<nat>): (Word, Acks) {
    if a.times != [] || times == [] then (h.flag, a) else (Marked(h.flag, WITH_TIME, true), a.(times := times))
  }

  class Head {
    var flag: Word
    var id: nat
    var bodyLen: nat
    var sendTime: nat
    var ackReliableVec: seq<nat>
    var reliableMsgSendTimeVec: seq<nat>
    var ackReliableOrderlyVec: seq<nat>
    var reliableOrderlyMsgSendTimeVec: seq<nat>

    function Value(): Header
      reads this
    {
      Header(flag, id, bodyLen, sendTime, Acks(ackReliableOrderlyVec, reliableOrderlyMsgSendTimeVec),
             Acks(ackReliableVec, reliableMsgSendTimeVec))
    }

    constructor ()
      ensures Value() == FRESH
    {
      flag, id, bodyLen, sendTime := NoFlags(), 0, 0, 0;
      ackReliableVec, reliableMsgSendTimeVec := [], [];
      ackReliableOrderlyVec, reliableOrderlyMsgSendTimeVec := [], [];
    }

    /** Everything but the send time is reset. */
    method Clear()
      modifies this
      ensures Cleared(Value()) && sendTime == old(sendTime)
    {
      flag, id, bodyLen := NoFlags(), 0, 0;
      ackReliableVec, ackReliableOrderlyVec := [], [];
      reliableMsgSendTimeVec, reliableOrderlyMsgSendTimeVec := [], [];
    }

    /** Both ack lists and the four bits that speak of them are gone; the timestamp bit stays. */
    method ClearAck()
      modifies this
      ensures Value() == WithoutAcks(old(Value()))
    {
      ackReliableVec, ackReliableOrderlyVec := [], [];
      reliableMsgSendTimeVec, reliableOrderlyMsgSendTimeVec := [], [];
      flag := flag[WITH_RELIABLE_ACK := false];
      flag := flag[WITH_ORDERLY_ACK := false];
      flag := flag[RELIABLE_ACK_RANGE := false];
      flag := flag[ORDERLY_ACK_RANGE := false];
    }

    method SetFlag(flag: Word)
      modifies this`flag
      ensures this.flag == flag
    {
      this.flag := flag;
    }

    method SetBodyLength(length: nat)
      modifies this`bodyLen, this`flag
      ensures bodyLen == length && flag == old(flag)[WITH_BODY := true]
    {
      bodyLen := length;
      flag := flag[WITH_BODY := true];
    }

    method SetId(id: nat)
      modifies this`id, this`flag
      ensures this.id == id && flag == old(flag)[WITH_ID := true]
    {
      this.id := id;
      flag := flag[WITH_ID := true];
    }

    method SetSendTime(time: nat)
      modifies this`sendTime
      ensures sendTime == time
    {
      sendTime := time;
    }

    method AddReliableOrderlyAck(ids: seq<nat>, continueRange: bool) returns (ok: bool)
      modifies this`ackReliableOrderlyVec, this`flag
      ensures ok <==> old(ackReliableOrderlyVec) == [] && ids != []
      ensures (flag, Value().orderly)
              == WithAck(old(Value()), WITH_ORDERLY_ACK, ORDERLY_ACK_RANGE, old(Value()).orderly, ids, continueRange)
    {
      if |ackReliableOrderlyVec| > 0 { return false; }
      if ids == [] { return false; }
      ackReliableOrderlyVec := ids;
      if continueRange { flag := flag[ORDERLY_ACK_RANGE := true]; }
      flag := flag[WITH_ORDERLY_ACK := true];
      return true;
    }

    method AddReliableOrderlyAckTime(times: seq<nat>) returns (ok: bool)
      modifies this`reliableOrderlyMsgSendTimeVec, this`flag
      ensures ok <==> old(reliableOrderlyMsgSendTimeVec) == [] && times != []
      ensures (flag, Value().orderly) == WithAckTime(old(Value()), old(Value()).orderly, times)
    {
      if |reliableOrderlyMsgSendTimeVec| > 0 { return false; }
      if times == [] { return false; }
      reliableOrderlyMsgSendTimeVec := times;
      flag := flag[WITH_TIME := true];
      return true;
    }

    method AddReliableAck(ids: seq<nat>, continueRange: bool) returns (ok: bool)
      modifies this`ackReliableVec, this`flag
      ensures ok <==> old(ackReliableVec) == [] && ids != []
      ensures (flag, Value().reliable)
              == WithAck(old(Value()), WITH_RELIABLE_ACK, RELIABLE_ACK_RANGE, old(Value()).reliable, ids, continueRange)
    {
      if |ackReliableVec| > 0 { return false; }
      if ids == [] { return false; }
      ackReliableVec := ids;
      if continueRange { flag := flag[RELIABLE_ACK_RANGE := true]; }
      flag := flag[WITH_RELIABLE_ACK := true];
      return true;
    }

    method AddReliableAckTime(times: seq<nat>) returns (ok: bool)
      modifies this`reliableMsgSendTimeVec, this`flag
      ensures ok <==> old(reliableMsgSendTimeVec) == [] && times != []
      ensures (flag, Value().reliable) == WithAckTime(old(Value()), old(Value()).reliable, times)
    {
      if |reliableMsgSendTimeVec| > 0 { return false; }
      if times == [] { return false; }
      reliableMsgSendTimeVec := times;
      flag := flag[WITH_TIME := true];
      return true;
    }
  }

  /** What ClearAck leaves of a header. */
  function WithoutAcks(h: Header): Header {
    h.(orderly := NO_ACKS, reliable := NO_ACKS,
       flag := h.flag[WITH_RELIABLE_ACK := false][WITH_ORDERLY_ACK := false]
               [RELIABLE_ACK_RANGE := false][ORDERLY_ACK_RANGE := false])
  }
}
