/** The byte streams of common/BitStream.cpp and common/BitStream.h. One buffer of an MTU is
    filled from the front by a writer, or loaded once and consumed from the front by a reader. */
module BitStream {
  import opened Bytes
  import opened Common
  import opened Wire

  const MAX_LENGTH := 0xFFFF  // __max_length

  /** What an attempt to append `bytes` does: it succeeds exactly when the result is within the
      MTU; then all of it is there, and otherwise what was there and some first part of it. */
  ghost predicate Appended(before: seq<Byte>, bytes: seq<Byte>, after: seq<Byte>, ok: bool) {
    && (ok <==> |before| + |bytes| <= MTU)
    && (if ok then after == before + bytes else before <= after <= before + bytes)
  }

  /** Two appends in a row, the second only after the first succeeded, are one append. */
  lemma AppendedInTurn(a: seq<Byte>, x: seq<Byte>, b: seq<Byte>, y: seq<Byte>, c: seq<Byte>, ok: bool)
    requires Appended(a, x, b, true) && Appended(b, y, c, ok)
    ensures Appended(a, x + y, c, ok)
  {
    assert a + (x + y) == b + y;
  }

  lemma AppendStopsShort(a: seq<Byte>, x: seq<Byte>, b: seq<Byte>, y: seq<Byte>)
    requires Appended(a, x, b, false)
    ensures Appended(a, x + y, b, false)
  {
    assert a + (x + y) == (a + x) + y;
  }

  class BitStreamWriter {
    const data: array<Byte>
    var curPoint: nat   // an offset into data
    var curLength: nat
    const length: nat

    ghost predicate Valid()
      reads this
    {
      data.Length == length == MTU && curPoint == curLength <= length
    }

    ghost function Contents(): (s: seq<Byte>)
      requires Valid()
      reads this, data
      ensures |s| <= MTU
    {
      data[..curLength]
    }

    constructor ()
      ensures Valid() && fresh(data) && Contents() == []
    {
      data := new Byte[MTU](_ => 0);
      length := MTU;
      curPoint := 0;
      curLength := 0;
    }

    /** Room for `len` more bytes. */
    method CheckBufferExpend(len: Uint16) returns (ok: bool)
      requires Valid()
      ensures ok <==> |Contents()| + len <= MTU
    {
      if MAX_LENGTH - curLength < len { return false; }
      return curLength + len <= length;
    }

    method CopyMemory(value: seq<Byte>)
      requires Valid() && |Contents()| + |value| <= MTU
      modifies this`curPoint, this`curLength, data
      ensures Valid() && Contents() == old(Contents()) + value
    {
      forall i | 0 <= i < |value| { data[curPoint + i] := value[i]; }
      curPoint := curPoint + |value|;
      curLength := curLength + |value|;
    }

    /** A block of bytes: all of it or none. */
    method Write(value: seq<Byte>) returns (ok: bool)
      requires Valid() && |value| < UINT16
      modifies this`curPoint, this`curLength, data
      ensures Valid() && (ok <==> |old(Contents())| + |value| <= MTU)
      ensures Contents() == if ok then old(Contents()) + value else old(Contents())
      ensures Appended(old(Contents()), value, Contents(), ok)
    {
      ok := CheckBufferExpend(|value|);
      if ok { CopyMemory(value); }
    }

    /** A number of one of the unsigned types, low byte first. */
    method WriteNum(v: nat, w: Width) returns (ok: bool)
      requires Valid()
      modifies this`curPoint, this`curLength, data
      ensures Valid() && (ok <==> |old(Contents())| + w.Size() <= MTU)
      ensures Contents() == if ok then old(Contents()) + Num(v, w) else old(Contents())
      ensures Appended(old(Contents()), Num(v, w), Contents(), ok)
    {
      ok := Write(Num(v, w));
    }
  }

  class BitStreamReader {
    const data: array<Byte>
    var curPoint: nat   // an offset into data
    var curLength: nat
    const length: nat

    ghost predicate Valid()
      reads this
    {
      data.Length == length == MTU && curPoint <= curLength <= length
    }

    /** The bytes not read yet. */
    ghost function Left(): seq<Byte>
      requires Valid()
      reads this, data
    {
      data[curPoint..curLength]
    }

    constructor ()
      ensures Valid() && fresh(data) && curLength == 0
    {
      data := new Byte[MTU](_ => 0);
      length := MTU;
      curPoint := 0;
      curLength := 0;
    }

    method CheckBufferExpend(len: Uint16) returns (ok: bool)
      requires Valid()
      ensures ok <==> curLength + len <= MTU
    {
      if MAX_LENGTH - curLength < len { return false; }
      return curLength + len <= length;
    }

    /** Loads a packet, once. One over the MTU is refused and leaves the stream empty. */
    method Init(value: seq<Byte>) returns (ok: bool)
      requires Valid() && curLength == 0 && |value| < UINT16
      modifies this`curLength, data
      ensures Valid() && (ok <==> |value| <= MTU)
      ensures Left() == if ok then value else []
    {
      ok := CheckBufferExpend(|value|);
      if ok {
        forall i | 0 <= i < |value| { data[i] := value[i]; }
        curLength := |value|;
      }
    }

    /** A block of exactly `len` bytes off the front, or nothing is consumed. */
    method Read(len: nat) returns (ok: bool, value: seq<Byte>)
      requires Valid()
      modifies this`curPoint
      ensures Valid() && (ok <==> len <= |old(Left())|)
      ensures if ok then old(Left()) == value + Left() && |value| == len else Left() == old(Left())
    {
      if curPoint + len > curLength { return false, []; }
      value := data[curPoint..curPoint + len];
      curPoint := curPoint + len;
      return true, value;
    }

    /** A number of one of the unsigned types. */
    method ReadNum(w: Width) returns (ok: bool, v: nat)
      requires Valid()
      modifies this`curPoint
      ensures Valid() && (ok <==> TakeNum(old(Left()), w).Some?)
      ensures ok ==> TakeNum(old(Left()), w) == Some((v, Left()))
      ensures !ok ==> v == 0 && Left() == old(Left())
    {
      v := 0;
      ghost var before := Left();
      var value;
      ok, value := Read(w.Size());
      if ok {
        v := FromBytes(value);
        assert before[..w.Size()] == value && before[w.Size()..] == Left();
      }
    }
  }
}
