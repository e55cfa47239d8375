/** The ring buffer of base/LoopBuffer.cpp.

    `Ring` is the buffer's memory and pointers as values; `Contents` is the byte sequence it
    stands for and `Free` the bytes of its free space in the order they are filled.  The class
    `LoopBuffer` is the code, with pointers as offsets into the block.
 */
module LoopBuffer {
  import opened Bytes
  import opened Common

  datatype Ring = Ring(data: seq<Byte>, read: nat, write: nat, canRead: bool)

  /** Pointers may equal the end of the block; an empty ring is back at the start. */
  ghost predicate Ok(r: Ring) {
    r.read <= |r.data| && r.write <= |r.data| && (r.read == r.write && !r.canRead ==> r.read == 0)
  }

  /** `len` bytes from `at` on, going round at the end of the block. */
  ghost function Circle(d: seq<Byte>, at: nat, len: nat): (s: seq<Byte>)
    requires at <= |d| && len <= |d|
    ensures |s| == len
  {
    if at + len <= |d| then d[at..at + len] else d[at..] + d[..at + len - |d|]
  }

  /** `len` bytes further round. */
  function Round(n: nat, at: nat, len: nat): nat
    requires at <= n && len <= n
  {
    if at + len <= n then at + len else at + len - n
  }

  ghost function Used(r: Ring): nat
    requires Ok(r)
  {
    if r.read < r.write then r.write - r.read
    else if r.read == r.write then (if r.canRead then |r.data| else 0)
    else |r.data| - r.read + r.write
  }

  ghost function Contents(r: Ring): seq<Byte>
    requires Ok(r)
  {
    Circle(r.data, r.read, Used(r))
  }

  ghost function Free(r: Ring): seq<Byte>
    requires Ok(r)
  {
    Circle(r.data, r.write, |r.data| - Used(r))
  }

  lemma CircleAt(d: seq<Byte>, at: nat, len: nat, k: nat)
    requires at <= |d| && k < len <= |d|
    ensures Circle(d, at, len)[k] == if at + k < |d| then d[at + k] else d[at + k - |d|]
  {
  }

  lemma SlicesJoin(d: seq<Byte>, i: nat, j: nat, k: nat)
    requires i <= j <= k <= |d|
    ensures d[i..k] == d[i..j] + d[j..k]
  {
  }

  lemma TailJoins(d: seq<Byte>, i: nat, j: nat)
    requires i <= j <= |d|
    ensures d[i..] == d[i..j] + d[j..]
  {
  }

  lemma FrontJoins(d: seq<Byte>, j: nat, k: nat)
    requires j <= k <= |d|
    ensures d[..k] == d[..j] + d[j..k]
  {
  }

  /** The bytes up to `m`, and those from there on round to `r`. */
  lemma SplitBeforeEnd(d: seq<Byte>, at: nat, m: nat, r: nat)
    requires at <= m <= |d| && r <= |d|
    ensures d[at..] + d[..r] == d[at..m] + (d[m..] + d[..r])
  {
    TailJoins(d, at, m);
    Assoc(d[at..m], d[m..], d[..r]);
  }

  /** The bytes round to `p`, and those from there on to `r`. */
  lemma SplitBehindEnd(d: seq<Byte>, at: nat, p: nat, r: nat)
    requires at <= |d| && p <= r <= |d|
    ensures d[at..] + d[..r] == (d[at..] + d[..p]) + d[p..r]
  {
    FrontJoins(d, p, r);
    Assoc(d[at..], d[..p], d[p..r]);
  }

  lemma {:induction false} SplitAhead(d: seq<Byte>, at: nat, a: nat, b: nat)
    requires a + b <= |d| && at + a + b <= |d|
    ensures Circle(d, at, a + b) == Circle(d, at, a) + Circle(d, at + a, b)
  {
    SlicesJoin(d, at, at + a, at + a + b);
  }

  lemma {:induction false} SplitOver(d: seq<Byte>, at: nat, a: nat, b: nat)
    requires a + b <= |d| && at + a <= |d| < at + a + b
    ensures Circle(d, at, a + b) == Circle(d, at, a) + Circle(d, at + a, b)
  {
    var m, r := at + a, at + a + b - |d|;
    assert Circle(d, at, a + b) == d[at..] + d[..r];
    assert Circle(d, at, a) == d[at..m];
    assert Circle(d, m, b) == d[m..] + d[..r];
    SplitBeforeEnd(d, at, m, r);
  }

  lemma {:induction false} SplitBehind(d: seq<Byte>, at: nat, a: nat, b: nat)
    requires at <= |d| && a + b <= |d| < at + a
    ensures Circle(d, at, a + b) == Circle(d, at, a) + Circle(d, at + a - |d|, b)
  {
    var p, r := at + a - |d|, at + a + b - |d|;
    assert Circle(d, at, a + b) == d[at..] + d[..r];
    assert Circle(d, at, a) == d[at..] + d[..p];
    assert Circle(d, p, b) == d[p..r];
    SplitBehindEnd(d, at, p, r);
  }

  lemma CircleSplit(d: seq<Byte>, at: nat, a: nat, b: nat)
    requires at <= |d| && a + b <= |d|
    ensures Circle(d, at, a + b) == Circle(d, at, a) + Circle(d, Round(|d|, at, a), b)
  {
    if at + a + b <= |d| { SplitAhead(d, at, a, b); }
    else if at + a <= |d| { SplitOver(d, at, a, b); }
    else { SplitBehind(d, at, a, b); }
  }

  // ---------------------------------------------------------------- writing

  /** The bytes `b` put down from `at` on, going round. */
  ghost function Lay(d: seq<Byte>, at: nat, b: seq<Byte>): (e: seq<Byte>)
    requires at <= |d| && |b| <= |d|
    ensures |e| == |d|
  {
    seq(|d|, j requires 0 <= j < |d| =>
      if at <= j < at + |b| then b[j - at] else if j + |d| < at + |b| then b[j + |d| - at] else d[j])
  }

  lemma LaidIsRead(d: seq<Byte>, at: nat, b: seq<Byte>)
    requires at <= |d| && |b| <= |d|
    ensures Circle(Lay(d, at, b), at, |b|) == b
  {
    var e := Lay(d, at, b);
    forall k | 0 <= k < |b| ensures Circle(e, at, |b|)[k] == b[k] {
      CircleAt(e, at, |b|, k);
    }
  }

  /** What follows the bytes laid down is as before. */
  lemma RestStays(d: seq<Byte>, at: nat, b: seq<Byte>, skip: nat, len: nat)
    requires at <= |d| && |b| <= skip && skip + len <= |d|
    ensures Circle(Lay(d, at, b), Round(|d|, at, skip), len) == Circle(d, Round(|d|, at, skip), len)
  {
    var from := Round(|d|, at, skip);
    forall k | 0 <= k < len ensures Circle(Lay(d, at, b), from, len)[k] == Circle(d, from, len)[k] {
      CircleAt(Lay(d, at, b), from, len, k);
      CircleAt(d, from, len, k);
    }
  }

  /** Bytes that reach the end of the block, and the rest at its start. */
  lemma {:induction false} LaidInTwo(d: seq<Byte>, at: nat, b: seq<Byte>)
    requires at <= |d| <= at + |b| && |b| <= |d|
    ensures var m := |d| - at;
            Lay(Lay(d, at, b[..m]), 0, b[m..]) == Lay(d, at, b)
  {
  }

  /** The first bytes of the free space overwritten. */
  ghost function Poked(r: Ring, b: seq<Byte>): (q: Ring)
    requires Ok(r) && |b| <= |r.data|
    ensures Ok(q)
  {
    r.(data := Lay(r.data, r.write, b))
  }

  /** A linear ring asked to take more than it has room for. */
  ghost predicate Overlong(r: Ring, len: nat)
    requires Ok(r)
  {
    r.read < r.write && len > |r.data| - Used(r)
  }

  /** How many of `len` bytes there is room for. */
  ghost function Room(r: Ring, len: nat): (n: nat)
    requires Ok(r)
    ensures n <= len && n + Used(r) <= |r.data|
  {
    Min(len, |r.data| - Used(r))
  }

  /** The write pointer moved over `len` bytes. */
  ghost function Moved(r: Ring, len: nat): (q: Ring)
    requires Ok(r)
    ensures Ok(q)
  {
    var n := |r.data|;
    if r.read < r.write then
      if r.write + len <= n then r.(write := r.write + len)
      else
        var left := len - (n - r.write);
        if left <= r.read then r.(write := left, canRead := r.canRead || left == r.read)
        else r.(read := r.write, canRead := true)
    else if r.read > r.write then
      if len <= r.read - r.write then r.(write := r.write + len, canRead := r.canRead || r.write + len == r.read)
      else r.(write := r.read, canRead := true)
    else if r.canRead then r
    else if n <= len then r.(canRead := true)
    else r.(write := len)
  }

  lemma WriteFollowsContents(r: Ring)
    requires Ok(r)
    ensures forall k :: 0 <= k <= |r.data| - Used(r) ==>
      Circle(r.data, r.write, k) == Circle(r.data, Round(|r.data|, r.read, Used(r)), k)
  {
  }

  lemma {:induction false} MovedPointers(r: Ring, len: nat)
    requires Ok(r)
    ensures var q, n := Moved(r, len), Room(r, len);
            && q.data == r.data && Used(q) == Used(r) + n
            && q.read == (if Overlong(r, len) then r.write else r.read)
  {
  }

  /** The first bytes of the free space. */
  lemma FreePrefix(r: Ring, n: nat)
    requires Ok(r) && n + Used(r) <= |r.data|
    ensures Free(r)[..n] == Circle(r.data, r.write, n)
  {
    CircleSplit(r.data, r.write, n, |r.data| - Used(r) - n);
  }

  /** Moving the pointer takes in the first bytes of the free space: behind what was there, but
      for an overlong request in front of it. */
  lemma {:induction false} MovedContents(r: Ring, len: nat)
    requires Ok(r)
    ensures var took := Free(r)[..Room(r, len)];
            Contents(Moved(r, len)) == if Overlong(r, len) then took + Contents(r) else Contents(r) + took
  {
    var n := Room(r, len);
    MovedPointers(r, len);
    FreePrefix(r, n);
    if Overlong(r, len) { TakenInFront(r, n); } else { TakenBehind(r, n); }
  }

  lemma TakenInFront(r: Ring, n: nat)
    requires Ok(r) && n + Used(r) == |r.data|
    ensures Circle(r.data, r.write, Used(r) + n) == Circle(r.data, r.write, n) + Contents(r)
  {
    CircleSplit(r.data, r.write, n, Used(r));
    ReadFollowsFree(r);
  }

  lemma TakenBehind(r: Ring, n: nat)
    requires Ok(r) && n + Used(r) <= |r.data|
    ensures Circle(r.data, r.read, Used(r) + n) == Contents(r) + Circle(r.data, r.write, n)
  {
    WriteFollowsContents(r);
    CircleSplit(r.data, r.read, Used(r), n);
  }

  lemma ReadFollowsFree(r: Ring)
    requires Ok(r)
    ensures Circle(r.data, Round(|r.data|, r.write, |r.data| - Used(r)), Used(r)) == Contents(r)
  {
  }

  /** A byte of the contents is not among those overwritten. */
  lemma PokedAt(r: Ring, b: seq<Byte>, k: nat)
    requires Ok(r) && |b| + Used(r) <= |r.data| && k < Used(r)
    ensures Contents(Poked(r, b))[k] == Contents(r)[k]
  {
    CircleAt(r.data, r.read, Used(r), k);
    CircleAt(Poked(r, b).data, r.read, Used(r), k);
  }

  lemma PokedKeepsContents(r: Ring, b: seq<Byte>)
    requires Ok(r) && |b| + Used(r) <= |r.data|
    ensures Contents(Poked(r, b)) == Contents(r)
  {
    forall k | 0 <= k < Used(r) ensures Contents(Poked(r, b))[k] == Contents(r)[k] {
      PokedAt(r, b, k);
    }
    assert |Contents(Poked(r, b))| == |Contents(r)|;
  }

  lemma PokedIsFree(r: Ring, b: seq<Byte>)
    requires Ok(r) && |b| + Used(r) <= |r.data|
    ensures Free(Poked(r, b))[..|b|] == b
  {
    var d, u, q := r.data, Used(r), Poked(r, b);
    LaidIsRead(d, r.write, b);
    FreePrefix(q, |b|);
  }

  // ---------------------------------------------------------------- reading

  /** The read pointer moved over `len` bytes, or everything dropped. */
  ghost function Consumed(r: Ring, len: nat): (q: Ring)
    requires Ok(r)
    ensures Ok(q)
  {
    if Used(r) <= len then (if r.read == r.write && !r.canRead then r else r.(read := 0, write := 0, canRead := false))
    else r.(read := Round(|r.data|, r.read, len))
  }

  lemma ContentsPrefix(r: Ring, k: nat)
    requires Ok(r) && k <= Used(r)
    ensures Contents(r)[..k] == Circle(r.data, r.read, k)
  {
    CircleSplit(r.data, r.read, k, Used(r) - k);
  }

  lemma {:induction false} ConsumedPointers(r: Ring, len: nat)
    requires Ok(r)
    ensures var q := Consumed(r, len);
            q.data == r.data && Used(q) == Used(r) - Min(len, Used(r)) && (Used(r) > len ==> q.read == Round(|r.data|, r.read, len))
  {
  }

  lemma ConsumedContents(r: Ring, len: nat)
    requires Ok(r)
    ensures Contents(Consumed(r, len)) == Contents(r)[Min(len, Used(r))..]
  {
    ConsumedPointers(r, len);
    if Used(r) > len { CircleSplit(r.data, r.read, len, Used(r) - len); }
  }

  // ---------------------------------------------------------------- the buffer as written

  class LoopBuffer {
    const data: array<Byte>
    var read: nat
    var write: nat
    var canRead: bool

    ghost function View(): Ring
      reads this, data
    {
      Ring(data[..], read, write, canRead)
    }

    ghost predicate Valid()
      reads this, data
    {
      Ok(View())
    }

    constructor (size: nat)
      ensures Valid() && fresh(data) && data.Length == size && Contents(View()) == []
    {
      data := new Byte[size](_ => 0);
      read, write, canRead := 0, 0, false;
    }

    /** memcpy into the block. */
    method CopyIn(at: nat, src: seq<Byte>)
      requires at + |src| <= data.Length
      modifies data
      ensures data[..] == Lay(old(data[..]), at, src)
    {
      for i := 0 to |src|
        invariant forall j :: 0 <= j < data.Length ==> data[j] == if at <= j < at + i then src[j - at] else old(data[j])
      {
        data[at + i] := src[i];
      }
    }

    /** Copy up to the end of the block, and on from its start. */
    method CopyInTwo(at: nat, src: seq<Byte>, sizeEnd: nat, canSave: nat)
      requires at + sizeEnd == data.Length && sizeEnd + canSave <= |src| && sizeEnd + canSave <= data.Length
      modifies data
      ensures data[..] == Lay(old(data[..]), at, src[..sizeEnd + canSave])
    {
      ghost var b := src[..sizeEnd + canSave];
      LaidInTwo(data[..], at, b);
      assert b[..sizeEnd] == src[..sizeEnd] && b[sizeEnd..] == src[sizeEnd..sizeEnd + canSave];
      CopyIn(at, src[..sizeEnd]);
      CopyIn(0, src[sizeEnd..sizeEnd + canSave]);
    }

    /** `_Read`: copy out up to `len` bytes, and drop them when `clear` is set. */
    method ReadOut(len: nat, clear: bool) returns (res: seq<Byte>)
      requires Valid()
      modifies this`read, this`write, this`canRead
      ensures Valid() && View() == if clear then Consumed(old(View()), len) else old(View())
      ensures res == Contents(old(View()))[..Min(len, |Contents(old(View()))|)]
    {
      ContentsPrefix(View(), Min(len, Used(View())));
      if read < write {
        res := ReadLinear(len, clear);
      } else {
        res := ReadRound(len, clear);
      }
    }

    method ReadLinear(len: nat, clear: bool) returns (res: seq<Byte>)
      requires Valid() && read < write
      modifies this`read, this`write, this`canRead
      ensures Valid() && View() == if clear then Consumed(old(View()), len) else old(View())
      ensures var r := old(View()); res == Circle(r.data, r.read, Min(len, Used(r)))
    {
      var size := write - read;
      if size <= len {
        res := data[read..read + size];
        if clear {
          write, read := 0, 0;
          canRead := false;
        }
      } else {
        res := data[read..read + len];
        if clear {
          read := read + len;
        }
      }
    }

    method ReadRound(len: nat, clear: bool) returns (res: seq<Byte>)
      requires Valid() && read >= write
      modifies this`read, this`write, this`canRead
      ensures Valid() && View() == if clear then Consumed(old(View()), len) else old(View())
      ensures var r := old(View()); res == Circle(r.data, r.read, Min(len, Used(r)))
    {
      if !canRead && read == write {
        return [];
      }
      var sizeStart := write;
      var sizeEnd := data.Length - read;
      var size := sizeStart + sizeEnd;
      if size <= len {
        res := data[read..read + sizeEnd] + data[0..sizeStart];
        if clear {
          read, write := 0, 0;
          canRead := false;
        }
      } else if len <= sizeEnd {
        res := data[read..read + len];
        if clear {
          read := read + len;
        }
      } else {
        var left := len - sizeEnd;
        res := data[read..read + sizeEnd] + data[0..left];
        if clear {
          read := left;
        }
      }
    }

    /** `Clear`: drop everything for 0, or up to `len` bytes. */
    method Clear(len: nat) returns (n: nat)
      requires Valid()
      modifies this`read, this`write, this`canRead
      ensures Valid()
      ensures len == 0 ==> n == 0 && Contents(View()) == []
      ensures len > 0 ==> View() == Consumed(old(View()), len) && n == Min(len, |Contents(old(View()))|)
    {
      if len == 0 {
        write, read := 0, 0;
        canRead := false;
        return 0;
      }
      if read < write {
        var size := write - read;
        if size <= len {
          write, read := 0, 0;
          canRead := false;
          return size;
        } else {
          read := read + len;
          return len;
        }
      } else {
        if !canRead && read == write {
          return 0;
        }
        var sizeEnd := data.Length - read;
        var size := write + sizeEnd;
        if size <= len {
          read, write := 0, 0;
          canRead := false;
          return size;
        } else if len <= sizeEnd {
          read := read + len;
          return len;
        } else {
          read := len - sizeEnd;
          return len;
        }
      }
    }

    /** `_Write`: take in up to `len` bytes, from `str` or, with none given, as they stand in the block. */
    method WriteIn(str: Option<seq<Byte>>, len: nat) returns (n: nat)
      requires Valid() && (str.Some? ==> |str.value| == len)
      modifies this`read, this`write, this`canRead, data
      ensures Valid() && n == Room(old(View()), len)
      ensures View() == Moved(Given(old(View()), str, n), len)
    {
      if read < write {
        n := WriteLinear(str, len);
      } else if read > write {
        n := WriteRound(str, len);
      } else {
        n := WriteLevel(str, len);
      }
    }

    method WriteLinear(str: Option<seq<Byte>>, len: nat) returns (n: nat)
      requires Valid() && read < write && (str.Some? ==> |str.value| == len)
      modifies this`read, this`write, this`canRead, data
      ensures Valid() && n == Room(old(View()), len)
      ensures View() == Moved(Given(old(View()), str, n), len)
    {
      if write + len <= data.Length {
        if str.Some? {
          assert str.value[..len] == str.value;
          CopyIn(write, str.value);
        }
        write := write + len;
        return len;
      }
      var sizeEnd := data.Length - write;
      var left := len - sizeEnd;
      var canSave := if left <= read then left else read;
      if str.Some? { CopyInTwo(write, str.value, sizeEnd, canSave); }
      if left <= read {
        write := left;
        if write == read {
          canRead := true;
        }
        return len;
      } else {
        read := write;
        canRead := true;
        return canSave + sizeEnd;
      }
    }

    method WriteRound(str: Option<seq<Byte>>, len: nat) returns (n: nat)
      requires Valid() && read > write && (str.Some? ==> |str.value| == len)
      modifies this`read, this`write, this`canRead, data
      ensures Valid() && n == Room(old(View()), len)
      ensures View() == Moved(Given(old(View()), str, n), len)
    {
      var size := read - write;
      if len <= size {
        if str.Some? {
          assert str.value[..len] == str.value;
          CopyIn(write, str.value);
        }
        write := write + len;
        if write == read {
          canRead := true;
        }
        return len;
      } else {
        if str.Some? {
          CopyIn(write, str.value[..size]);
        }
        write := write + size;
        canRead := true;
        return size;
      }
    }

    method WriteLevel(str: Option<seq<Byte>>, len: nat) returns (n: nat)
      requires Valid() && read == write && (str.Some? ==> |str.value| == len)
      modifies this`read, this`write, this`canRead, data
      ensures Valid() && n == Room(old(View()), len)
      ensures View() == Moved(Given(old(View()), str, n), len)
    {
      if canRead {
        if str.Some? { NothingLaid(data[..], write); }
        return 0;
      }
      read, write := 0, 0;
      var size := data.Length;
      if size <= len {
        if str.Some? {
          CopyIn(write, str.value[..size]);
        }
        canRead := true;
        return size;
      } else {
        if str.Some? {
          assert str.value[..len] == str.value;
          CopyIn(write, str.value);
        }
        write := write + len;
        return len;
      }
    }

    method Read(len: nat) returns (res: seq<Byte>)
      requires Valid()
      modifies this`read, this`write, this`canRead
      ensures Valid() && data[..] == old(data[..])
      // takes a prefix off the contents
      ensures old(Contents(View())) == res + Contents(View()) && |res| == Min(len, |old(Contents(View()))|)
    {
      ConsumedContents(View(), len);
      res := ReadOut(len, true);
    }

    method ReadNotClear(len: nat) returns (res: seq<Byte>)
      requires Valid()
      modifies this`read, this`write, this`canRead
      ensures Valid() && View() == old(View())
      ensures res == Contents(View())[..Min(len, |Contents(View())|)]
    {
      res := ReadOut(len, false);
    }

    method Write(str: seq<Byte>) returns (n: nat)
      requires Valid()
      modifies this`read, this`write, this`canRead, data
      ensures Valid() && View() == Written(old(View()), str) && n == Min(|str|, |old(Free(View()))|)
      // appends, except that an overlong write to a linear ring prepends
      ensures var was := old(Contents(View()));
        Contents(View()) == if old(Overlong(View(), |str|)) then str[..n] + was else was + str[..n]
    {
      WrittenContents(View(), str);
      n := WriteIn(Some(str), |str|);
    }

    method MoveWritePt(len: nat) returns (n: nat)
      requires Valid()
      modifies this`read, this`write, this`canRead, data
      ensures Valid() && View() == Moved(old(View()), len) && n == Min(len, |old(Free(View()))|)
    {
      n := WriteIn(None, len);
    }

    method GetFreeLength() returns (n: nat)
      requires Valid()
      ensures n == |Free(View())|
    {
      if write > read {
        return (data.Length - write) + read;
      } else if write < read {
        return read - write;
      } else {
        if canRead {
          return 0;
        } else {
          return data.Length;
        }
      }
    }

    method GetCanReadLength() returns (n: nat)
      requires Valid()
      ensures n == |Contents(View())|
    {
      if write > read {
        return write - read;
      } else if write < read {
        return (data.Length - read) + write;
      } else {
        if canRead {
          return data.Length;
        } else {
          return 0;
        }
      }
    }

    /** The one or two stretches of free space, as offsets and lengths. */
    method GetFreeMemoryBlock() returns (ok: bool, res1: Option<nat>, len1: nat, res2: Option<nat>, len2: nat)
      requires Valid()
      ensures ok <==> !(canRead && read == write)
      ensures Blocks(res1, len1, res2, len2) == FreeBlocks(View())
      ensures var blocks := Blocks(res1, len1, res2, len2);
        && blocks.Fit(data[..]) && blocks.Joined(data[..]) == Free(View())
        && forall i :: 0 <= i < data.Length ==> (blocks.Covers(i) <==> !InUse(View(), i))
    {
      res1, res2 := None, None;
      len1, len2 := 0, 0;
      if write >= read {
        if canRead && write == read {
          return false, res1, len1, res2, len2;
        }
        res1, len1 := Some(write), data.Length - write;
        len2 := read;
        if len2 > 0 {
          res2 := Some(0);
        }
        return true, res1, len1, res2, len2;
      } else {
        return true, Some(write), read - write, res2, len2;
      }
    }

    /** The one or two stretches in use. */
    method GetUseMemoryBlock() returns (ok: bool, res1: Option<nat>, len1: nat, res2: Option<nat>, len2: nat)
      requires Valid()
      ensures ok <==> canRead || read != write
      ensures var blocks := Blocks(res1, len1, res2, len2);
        && blocks.Fit(data[..]) && blocks.Joined(data[..]) == Contents(View())
        && forall i :: 0 <= i < data.Length ==> (blocks.Covers(i) <==> InUse(View(), i))
    {
      res1, res2 := None, None;
      len1, len2 := 0, 0;
      if read >= write {
        if !canRead && write == read {
          return false, res1, len1, res2, len2;
        }
        res1, len1 := Some(read), data.Length - read;
        len2 := write;
        if len2 > 0 {
          res2 := Some(0);
        }
        return true, res1, len1, res2, len2;
      } else {
        return true, Some(read), write - read, res2, len2;
      }
    }
  }

  /** The ring a write starts moving its pointer in: with the accepted bytes laid down, if there are any to lay. */
  ghost function Given(r: Ring, str: Option<seq<Byte>>, n: nat): (q: Ring)
    requires Ok(r) && n <= |r.data| && (str.Some? ==> n <= |str.value|)
    ensures Ok(q)
  {
    if str.Some? then Poked(r, str.value[..n]) else r
  }

  /** Position `i` of the block holds a byte of the contents. */
  ghost predicate InUse(r: Ring, i: nat)
    requires Ok(r) && i < |r.data|
  {
    if r.read < r.write then r.read <= i < r.write
    else if r.read == r.write then r.canRead
    else i < r.write || r.read <= i
  }

  /** One or two stretches of the block, or none. */
  datatype Blocks = Blocks(at1: Option<nat>, len1: nat, at2: Option<nat>, len2: nat) {
    predicate Covers(i: nat) {
      (at1.Some? && at1.value <= i < at1.value + len1) || (at2.Some? && at2.value <= i < at2.value + len2)
    }

    predicate Fit(d: seq<Byte>) {
      && (if at1.Some? then at1.value + len1 <= |d| else len1 == 0)
      && (if at2.Some? then at2.value + len2 <= |d| else len2 == 0)
    }

    function Joined(d: seq<Byte>): seq<Byte>
      requires Fit(d)
    {
      (if at1.Some? then d[at1.value..at1.value + len1] else []) + (if at2.Some? then d[at2.value..at2.value + len2] else [])
    }
  }

  /** The blocks GetFreeMemoryBlock gives. */
  ghost function FreeBlocks(r: Ring): Blocks
    requires Ok(r)
  {
    if r.write < r.read then Blocks(Some(r.write), r.read - r.write, None, 0)
    else if r.canRead && r.write == r.read then Blocks(None, 0, None, 0)
    else Blocks(Some(r.write), |r.data| - r.write, if r.read > 0 then Some(0) else None, r.read)
  }

  /** They are the free space, in order and nothing else. */
  lemma FreeBlocksAreFree(r: Ring)
    requires Ok(r)
    ensures FreeBlocks(r).Fit(r.data) && FreeBlocks(r).Joined(r.data) == Free(r)
    ensures forall i :: 0 <= i < |r.data| ==> (FreeBlocks(r).Covers(i) <==> !InUse(r, i))
  {
  }

  lemma NothingLaid(d: seq<Byte>, at: nat)
    requires at <= |d|
    ensures Lay(d, at, []) == d
  {
  }

  // ---------------------------------------------------------------- the buffer as a byte queue

  /** The ring after Write. */
  ghost function Written(r: Ring, b: seq<Byte>): (q: Ring)
    requires Ok(r)
    ensures Ok(q)
  {
    Moved(Poked(r, b[..Room(r, |b|)]), |b|)
  }

  lemma {:induction false} WrittenContents(r: Ring, b: seq<Byte>)
    requires Ok(r)
    ensures var took := b[..Room(r, |b|)];
            Contents(Written(r, b)) == if Overlong(r, |b|) then took + Contents(r) else Contents(r) + took
  {
    var took := b[..Room(r, |b|)];
    PokedKeepsContents(r, took);
    PokedIsFree(r, took);
    MovedContents(Poked(r, took), |b|);
  }

  /** Write appends, whatever the bytes, exactly when the request is not overlong, or there is no room at all. */
  lemma WriteAppendsIff(r: Ring, len: nat)
    requires Ok(r)
    ensures (forall b :: |b| == len ==> Contents(Written(r, b)) == Contents(r) + b[..Room(r, len)])
       <==> !Overlong(r, len) || |Free(r)| == 0
  {
    if !Overlong(r, len) || |Free(r)| == 0 {
      forall b: seq<Byte> | |b| == len ensures Contents(Written(r, b)) == Contents(r) + b[..Room(r, len)] {
        WrittenContents(r, b);
        if Overlong(r, len) { assert b[..0] + Contents(r) == Contents(r) + b[..0]; }
      }
    } else {
      var other: Byte := if Contents(r)[0] == 0 then 1 else 0;
      var b := seq(len, _ => other);
      WrittenContents(r, b);
      assert Contents(Written(r, b))[0] == other;
      assert (Contents(r) + b[..Room(r, len)])[0] == Contents(r)[0];
    }
  }

  /** The smallest case: one free byte, two bytes written. */
  lemma {:induction false} OverlongWritePrepends()
    ensures var r := Ring([7, 8, 9], 0, 2, false);
            Contents(r) == [7, 8] && Contents(Written(r, [5, 6])) == [5, 7, 8]
  {
    var r := Ring([7, 8, 9], 0, 2, false);
    WrittenContents(r, [5, 6]);
    assert [5, 6][..1] == [5];
  }

  /** Someone wrote into the blocks, and nowhere else. */
  ghost predicate FilledIn(r: Ring, filled: Ring, blocks: Blocks) {
    && filled == r.(data := filled.data) && |filled.data| == |r.data|
    && forall i :: 0 <= i < |r.data| && !blocks.Covers(i) ==> filled.data[i] == r.data[i]
  }

  /** The place in the block of a byte of the contents. */
  function PlaceOf(r: Ring, k: nat): nat
    requires r.read + k < 2 * |r.data|
  {
    if r.read + k < |r.data| then r.read + k else r.read + k - |r.data|
  }

  lemma ContentsAt(r: Ring, k: nat)
    requires Ok(r) && k < Used(r)
    ensures PlaceOf(r, k) < |r.data| && InUse(r, PlaceOf(r, k)) && Contents(r)[k] == r.data[PlaceOf(r, k)]
  {
    CircleAt(r.data, r.read, Used(r), k);
  }

  lemma FillingKeepsContents(r: Ring, filled: Ring)
    requires Ok(r) && Ok(filled) && FilledIn(r, filled, FreeBlocks(r))
    ensures Contents(filled) == Contents(r)
  {
    FreeBlocksAreFree(r);
    forall k | 0 <= k < Used(r) ensures Contents(filled)[k] == Contents(r)[k] {
      ContentsAt(r, k);
      ContentsAt(filled, k);
      assert filled.data[PlaceOf(r, k)] == r.data[PlaceOf(r, k)];
    }
  }

  /** Room depends on the pointers alone. */
  lemma SamePointers(r: Ring, filled: Ring, len: nat)
    requires Ok(r) && Ok(filled) && |filled.data| == |r.data| && filled == r.(data := filled.data)
    ensures Room(filled, len) == Room(r, len) && (Overlong(filled, len) <==> Overlong(r, len))
  {
  }

  lemma MoveOverFilled(r: Ring, filled: Ring, b: seq<Byte>)
    requires Ok(r) && Ok(filled) && |filled.data| == |r.data| && filled == r.(data := filled.data)
    requires Contents(filled) == Contents(r) && Free(filled)[..Room(r, |b|)] == b[..Room(r, |b|)]
    ensures Contents(Moved(filled, |b|)) == Contents(Written(r, b))
  {
    var took := b[..Room(r, |b|)];
    SamePointers(r, filled, |b|);
    MovedContents(filled, |b|);
    WrittenContents(r, b);
    assert Contents(Moved(filled, |b|)) == if Overlong(r, |b|) then took + Contents(r) else Contents(r) + took;
  }

  /** Filling the blocks GetFreeMemoryBlock gives, from their front, and then moving the write
      pointer is Write. */
  lemma FillThenMoveIsWrite(r: Ring, filled: Ring, b: seq<Byte>)
    requires Ok(r) && Ok(filled) && FilledIn(r, filled, FreeBlocks(r)) && FreeBlocks(r).Fit(filled.data)
    requires b[..Room(r, |b|)] <= FreeBlocks(r).Joined(filled.data)
    ensures Contents(Moved(filled, |b|)) == Contents(Written(r, b))
  {
    FillingKeepsContents(r, filled);
    assert FreeBlocks(filled) == FreeBlocks(r);
    FreeBlocksAreFree(filled);
    MoveOverFilled(r, filled, b);
  }

  datatype Op = Put(bytes: seq<Byte>) | Take(len: nat)

  /** What went in, what came out, and the ring. */
  datatype Trace = Trace(ins: seq<Byte>, outs: seq<Byte>, ring: Ring)

  ghost function Step(t: Trace, op: Op): (u: Trace)
    requires Ok(t.ring)
    ensures Ok(u.ring)
  {
    match op
    case Put(b) => Trace(t.ins + b[..Room(t.ring, |b|)], t.outs, Written(t.ring, b))
    case Take(len) => Trace(t.ins, t.outs + Contents(t.ring)[..Min(len, Used(t.ring))], Consumed(t.ring, len))
  }

  ghost function Run(t: Trace, ops: seq<Op>): (u: Trace)
    requires Ok(t.ring)
    ensures Ok(u.ring)
    decreases |ops|
  {
    if ops == [] then t else Run(Step(t, ops[0]), ops[1..])
  }

  /** No Put of the run is overlong. */
  ghost predicate Fits(t: Trace, ops: seq<Op>)
    requires Ok(t.ring)
    decreases |ops|
  {
    ops == [] || ((ops[0].Put? ==> !Overlong(t.ring, |ops[0].bytes|)) && Fits(Step(t, ops[0]), ops[1..]))
  }

  /** First in, first out, over every run without an overlong write: the accepted bytes are the
      bytes taken out followed by the contents. */
  lemma {:induction false} EveryRunIsFifo(t: Trace, ops: seq<Op>)
    requires Ok(t.ring) && t.ins == t.outs + Contents(t.ring) && Fits(t, ops)
    ensures var u := Run(t, ops); u.ins == u.outs + Contents(u.ring)
    decreases |ops|
  {
    if ops != [] {
      StepIsFifo(t, ops[0]);
      EveryRunIsFifo(Step(t, ops[0]), ops[1..]);
    }
  }

  lemma {:induction false} StepIsFifo(t: Trace, op: Op)
    requires Ok(t.ring) && t.ins == t.outs + Contents(t.ring) && (op.Put? ==> !Overlong(t.ring, |op.bytes|))
    ensures var u := Step(t, op); u.ins == u.outs + Contents(u.ring)
  {
    match op
    case Put(b) =>
      WrittenContents(t.ring, b);
      Assoc(t.outs, Contents(t.ring), b[..Room(t.ring, |b|)]);
    case Take(len) =>
      ConsumedContents(t.ring, len);
      MoveAcross(t.outs, Contents(t.ring), Min(len, Used(t.ring)));
  }

  lemma MoveAcross(a: seq<Byte>, b: seq<Byte>, n: nat)
    requires n <= |b|
    ensures a + b == (a + b[..n]) + b[n..]
  {
  }
}
