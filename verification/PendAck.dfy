/** Acks waiting to be sent (common/PendAck.cpp): an ordered map from message id to send time,
    from which as many entries as a packet has room for are taken, smallest id first. */
module PendAck {
  import opened Bytes
  import opened Common
  import opened Wire

  const ID_LENGTH := 2    // __id_length
  const TIME_LENGTH := 8  // __time_length
  const ACK_LENGTH_LIMIT := 430  // __ack_length_limit

  /** An entry without a time has time 0. */
  type Pending = map<nat, nat>

  ghost predicate IsLeast(k: nat, s: set<nat>) { k in s && forall j :: j in s ==> k <= j }

  lemma {:induction false} LeastExists(s: set<nat>)
    requires s != {}
    ensures exists k :: IsLeast(k, s)
  {
    var x :| x in s;
    if s == {x} {
      assert IsLeast(x, s);
    } else {
      LeastExists(s - {x});
      var y :| IsLeast(y, s - {x});
      var k := if x < y then x else y;
      forall j | j in s ensures k <= j {
        assert j == x || j in s - {x};
      }
      assert IsLeast(k, s);
    }
  }

  /** The first entry of the ordered map. */
  function Begin(m: Pending): (k: nat)
    requires m != map[]
    ensures IsLeast(k, m.Keys)
  {
    LeastExists(m.Keys);
    var k :| k in m.Keys && forall j :: j in m.Keys ==> k <= j;
    k
  }

  /** Whether the next entry still goes in. The running size is a 16-bit number. */
  function Room(limit: nat, cur: nat, time: nat): bool {
    if time != 0 then (cur + TIME_LENGTH) % UINT16 < limit && (cur + TIME_LENGTH + ID_LENGTH) % UINT16 < limit
    else (cur + ID_LENGTH) % UINT16 < limit
  }

  function Grown(cur: nat, time: nat): nat {
    (cur + ID_LENGTH + if time != 0 then TIME_LENGTH else 0) % UINT16
  }

  /** The ids taken under a limit, in the order they are taken. */
  function Taken(m: Pending, limit: nat, cur: nat): seq<nat>
    decreases |m|
  {
    if m == map[] || !Room(limit, cur, m[Begin(m)]) then []
    else [Begin(m)] + Taken(m - {Begin(m)}, limit, Grown(cur, m[Begin(m)]))
  }

  /** The running size when the next entry does not go in. */
  function Stopped(limit: nat, cur: nat, time: nat): nat {
    if time != 0 && limit <= (cur + TIME_LENGTH) % UINT16 then (cur + TIME_LENGTH) % UINT16 else Grown(cur, time)
  }

  /** The running size at the end, which also counts the entry that did not go in. */
  function Spent(m: Pending, limit: nat, cur: nat): nat
    decreases |m|
  {
    if m == map[] then cur
    else if Room(limit, cur, m[Begin(m)]) then Spent(m - {Begin(m)}, limit, Grown(cur, m[Begin(m)]))
    else Stopped(limit, cur, m[Begin(m)])
  }

  ghost predicate AllIn(ids: seq<nat>, m: Pending) { forall i :: 0 <= i < |ids| ==> ids[i] in m }

  /** The times of the ids that have one. */
  function TimesOf(m: Pending, ids: seq<nat>): seq<nat>
    requires AllIn(ids, m)
  {
    if ids == [] then []
    else
      var last := |ids| - 1;
      TimesOf(m, ids[..last]) + if m[ids[last]] != 0 then [m[ids[last]]] else []
  }

  /** The test made of the ids as they are taken: each one more than the one before, unless
      that was 0. */
  predicate Continuous(ids: seq<nat>) {
    var n := |ids|;
    n < 2 || (Continuous(ids[..n - 1]) && (ids[n - 2] == 0 || ids[n - 2] == (ids[n - 1] - 1) % UINT16))
  }

  ghost function Ids(ids: seq<nat>): set<nat> { set id | id in ids }

  /** What was taken out of the map so far. */
  ghost predicate TakenFrom(m: Pending, ids: seq<nat>, left: Pending) {
    AllIn(ids, m) && left == m - Ids(ids)
  }

  lemma TakenNothing(m: Pending)
    ensures TakenFrom(m, [], m)
  {}

  lemma TakenOneMore(m: Pending, ids: seq<nat>, left: Pending, id: nat)
    requires TakenFrom(m, ids, left) && id in left
    ensures TakenFrom(m, ids + [id], left - {id}) && left[id] == m[id]
  {
    assert Ids(ids + [id]) == Ids(ids) + {id};
    assert left - {id} == m - (Ids(ids) + {id});
  }

  lemma {:induction false} TakenStep(ids: seq<nat>, left: Pending, limit: nat, cur: nat)
    requires left != map[]
    ensures var id := Begin(left); var time := left[id];
            ids + Taken(left, limit, cur)
            == if Room(limit, cur, time) then (ids + [id]) + Taken(left - {id}, limit, Grown(cur, time)) else ids
  {
    var id := Begin(left);
    var rest := Taken(left - {id}, limit, Grown(cur, left[id]));
    assert ids + ([id] + rest) == (ids + [id]) + rest;
  }

  lemma {:induction false} TimesOfOneMore(m: Pending, ids: seq<nat>, id: nat)
    requires AllIn(ids, m) && id in m
    ensures AllIn(ids + [id], m)
    ensures TimesOf(m, ids + [id]) == TimesOf(m, ids) + if m[id] != 0 then [m[id]] else []
  {
    assert (ids + [id])[..|ids|] == ids;
  }

  lemma {:induction false} ContinuousOneMore(ids: seq<nat>, id: nat)
    ensures Continuous(ids + [id])
            <==> Continuous(ids) && (ids == [] || ids[|ids| - 1] == 0 || ids[|ids| - 1] == (id - 1) % UINT16)
  {
    assert (ids + [id])[..|ids|] == ids;
  }

  /** How far the loop has come: what it took, what is left, and what is still to be spent. */
  ghost predicate Progress(m: Pending, limit: nat, left: Pending, cur: nat, ids: seq<nat>, times: seq<nat>, prev: nat) {
    && TakenFrom(m, ids, left) && times == TimesOf(m, ids)
    && Taken(m, limit, 0) == ids + Taken(left, limit, cur)
    && Spent(m, limit, 0) == Spent(left, limit, cur)
    && prev == if ids == [] then 0 else ids[|ids| - 1]
  }

  lemma ProgressStarts(m: Pending, limit: nat)
    ensures Progress(m, limit, m, 0, [], [], 0)
  {
    TakenNothing(m);
    assert [] + Taken(m, limit, 0) == Taken(m, limit, 0);
  }

  lemma {:induction false} ProgressSteps(m: Pending, limit: nat, left: Pending, cur: nat, ids: seq<nat>, times: seq<nat>, prev: nat)
    requires Progress(m, limit, left, cur, ids, times, prev) && left != map[] && Room(limit, cur, left[Begin(left)])
    ensures Progress(m, limit, left - {Begin(left)}, Grown(cur, left[Begin(left)]), ids + [Begin(left)],
                     times + (if left[Begin(left)] != 0 then [left[Begin(left)]] else []), Begin(left))
    ensures Continuous(ids + [Begin(left)])
            <==> Continuous(ids) && (prev == 0 || prev == (Begin(left) - 1) % UINT16)
  {
    var id := Begin(left);
    TakenStep(ids, left, limit, cur);
    TakenOneMore(m, ids, left, id);
    TimesOfOneMore(m, ids, id);
    ContinuousOneMore(ids, id);
  }

  /** The loop stops with nothing left, or in front of an entry without room. */
  lemma {:induction false} ProgressEnds(m: Pending, limit: nat, left: Pending, cur: nat, ids: seq<nat>, times: seq<nat>, prev: nat)
    requires Progress(m, limit, left, cur, ids, times, prev) && (left != map[] ==> !Room(limit, cur, left[Begin(left)]))
    ensures ids == Taken(m, limit, 0)
    ensures Spent(m, limit, 0) == if left == map[] then cur else Stopped(limit, cur, left[Begin(left)])
  {
    assert ids + [] == ids;
  }

  // ---------------------------------------------------------------- the map itself

  class PendAck {
    var ackMap: Pending
    var curSize: Uint32

    constructor ()
      ensures ackMap == map[] && curSize == 0
    {
      ackMap, curSize := map[], 0;
    }

    /** `now`: the acks are to be sent at once. */
    method AddAck(id: Uint16) returns (now: bool)
      modifies this
      ensures ackMap == old(ackMap)[id := 0] && curSize == (old(curSize) + ID_LENGTH) % UINT32
      ensures now <==> curSize >= ACK_LENGTH_LIMIT
    {
      ackMap := ackMap[id := 0];
      curSize := (curSize + ID_LENGTH) % UINT32;
      now := curSize >= ACK_LENGTH_LIMIT;
    }

    method AddAckTimed(id: Uint16, sendTime: Uint64) returns (now: bool)
      modifies this
      ensures ackMap == old(ackMap)[id := sendTime] && curSize == (old(curSize) + ID_LENGTH + TIME_LENGTH) % UINT32
      ensures now <==> curSize >= ACK_LENGTH_LIMIT
    {
      ackMap := ackMap[id := sendTime];
      curSize := (curSize + ID_LENGTH + TIME_LENGTH) % UINT32;
      now := curSize >= ACK_LENGTH_LIMIT;
    }

    function HasAck(): bool
      reads this
    {
      ackMap != map[]
    }

    /** Takes the first entry if there is room for it. */
    method TakeFirst(limit: Uint16, size: nat) returns (took: bool, id: nat, time: nat, cur: nat)
      requires ackMap != map[]
      modifies this`ackMap
      ensures id == Begin(old(ackMap)) && time == old(ackMap)[id]
      ensures took <==> Room(limit, size, time)
      ensures ackMap == if took then old(ackMap) - {id} else old(ackMap)
      ensures cur == if took then Grown(size, time) else Stopped(limit, size, time)
    {
      took, id := false, Begin(ackMap);
      time := ackMap[id];
      if time != 0 {
        cur := (size + TIME_LENGTH) % UINT16;
        if limit <= cur { return; }
        cur := (cur + ID_LENGTH) % UINT16;
        if limit <= cur { return; }
      } else {
        cur := (size + ID_LENGTH) % UINT16;
        if limit <= cur { return; }
      }
      took, ackMap := true, ackMap - {id};
    }

    /** Takes entries from the front while they fit, and says whether their ids may be sent as
        a range: only if the caller allowed it, and there is not just one. */
    method GetAck(continuity: bool, sizeLimit: Uint16)
      returns (ok: bool, ids: seq<nat>, times: seq<nat>, continues: bool)
      modifies this
      ensures ok <==> old(ackMap) != map[]
      ensures ids == Taken(old(ackMap), sizeLimit, 0) && TakenFrom(old(ackMap), ids, ackMap)
      ensures times == TimesOf(old(ackMap), ids)
      ensures continues <==> continuity && (ok ==> |ids| != 1 && Continuous(ids))
      ensures curSize == (old(curSize) - Spent(old(ackMap), sizeLimit, 0)) % UINT32
    {
      ids, times, continues := [], [], continuity;
      ok := ackMap != map[];
      TakenNothing(ackMap);
      if !ok { return; }
      var cur;
      ids, times, continues, cur := TakeAll(continuity, sizeLimit);
      if continues && |ids| == 1 { continues := false; }
      curSize := (curSize - cur) % UINT32;
    }

    /** The loop of GetAck. */
    method TakeAll(continuity: bool, sizeLimit: Uint16)
      returns (ids: seq<nat>, times: seq<nat>, continues: bool, cur: nat)
      modifies this`ackMap
      ensures ids == Taken(old(ackMap), sizeLimit, 0) && TakenFrom(old(ackMap), ids, ackMap)
      ensures times == TimesOf(old(ackMap), ids) && cur == Spent(old(ackMap), sizeLimit, 0)
      ensures continues <==> continuity && Continuous(ids)
    {
      var prev: nat := 0;
      ids, times, continues, cur := [], [], continuity, 0;
      ProgressStarts(ackMap, sizeLimit);
      while ackMap != map[]
        invariant Progress(old(ackMap), sizeLimit, ackMap, cur, ids, times, prev)
        invariant continues <==> continuity && Continuous(ids)
        decreases |ackMap|
      {
        ghost var left := ackMap;
        var took, id, time, grown := TakeFirst(sizeLimit, cur);
        if !took {
          ProgressEnds(old(ackMap), sizeLimit, ackMap, cur, ids, times, prev);
          cur := grown;
          return;
        }
        ProgressSteps(old(ackMap), sizeLimit, left, cur, ids, times, prev);
        if prev != 0 && prev != (id - 1) % UINT16 { continues := false; }
        ids, times := ids + [id], times + if time != 0 then [time] else [];
        prev, cur := id, grown;
      }
      ProgressEnds(old(ackMap), sizeLimit, ackMap, cur, ids, times, prev);
    }
  }

  // ---------------------------------------------------------------- what is taken

  ghost predicate Ascending(ids: seq<nat>) { forall i, j :: 0 <= i < j < |ids| ==> ids[i] < ids[j] }

  /** In order, and in front of everything left behind. */
  ghost predicate LowestOf(ids: seq<nat>, m: Pending) {
    && AllIn(ids, m) && Ascending(ids)
    && forall k, i :: k in m && k !in ids && 0 <= i < |ids| ==> ids[i] < k
  }

  /** Whatever the limit, the ids taken are the lowest ones, in ascending order. */
  lemma {:induction false} TakenIsLowest(m: Pending, limit: nat, cur: nat)
    ensures LowestOf(Taken(m, limit, cur), m)
    decreases |m|
  {
    if m != map[] && Room(limit, cur, m[Begin(m)]) {
      var id := Begin(m);
      TakenIsLowest(m - {id}, limit, Grown(cur, m[id]));
      LowestExtends(m, Taken(m - {id}, limit, Grown(cur, m[id])));
    }
  }

  lemma LowestExtends(m: Pending, ids: seq<nat>)
    requires m != map[] && LowestOf(ids, m - {Begin(m)})
    ensures LowestOf([Begin(m)] + ids, m)
  {
    var id := Begin(m);
    var more := [id] + ids;
    forall i | 0 <= i < |more| ensures more[i] in m && (i > 0 ==> id < more[i]) {
      if i > 0 { assert more[i] == ids[i - 1] && ids[i - 1] in m - {id}; }
    }
    forall k, i | k in m && k !in more && 0 <= i < |more| ensures more[i] < k {
      if i > 0 { assert more[i] == ids[i - 1] && k in m - {id} && k !in ids; }
    }
  }

  ghost predicate AllTimed(m: Pending) { forall id :: id in m ==> m[id] != 0 }

  /** The most entries with a time that stay under a limit, 10 bytes each. */
  function Quota(limit: nat): nat { if limit == 0 then 0 else (limit - 1) / 10 }

  lemma SizeWithout(m: Pending, id: nat)
    requires id in m
    ensures |m - {id}| == |m| - 1
  {
    assert (m - {id}).Keys == m.Keys - {id};
  }

  lemma {:induction false} TakenSize(m: Pending, limit: nat, cur: nat)
    requires m != map[]
    ensures |Taken(m, limit, cur)|
            == if Room(limit, cur, m[Begin(m)]) then 1 + |Taken(m - {Begin(m)}, limit, Grown(cur, m[Begin(m)]))| else 0
  {
  }

  lemma QuotaStep(room: nat)
    ensures Quota(room) == if room <= 10 then 0 else Quota(room - 10) + 1
  {
  }

  lemma TimedRoom(limit: nat, cur: nat, time: nat)
    requires time != 0 && cur <= limit <= 65525
    ensures Room(limit, cur, time) <==> limit - cur > 10
    ensures Room(limit, cur, time) ==> Grown(cur, time) == cur + 10
  {
  }

  /** With times throughout and no wrap of the 16-bit size, the number taken is the largest `n`
      with 10n below the limit, or everything. */
  lemma {:induction false} TakenCount(m: Pending, limit: nat, cur: nat)
    requires AllTimed(m) && cur <= limit <= 65525
    ensures |Taken(m, limit, cur)| == Min(|m|, Quota(limit - cur))
    decreases |m|
  {
    if m != map[] {
      var id := Begin(m);
      TakenSize(m, limit, cur);
      TimedRoom(limit, cur, m[id]);
      QuotaStep(limit - cur);
      if Room(limit, cur, m[id]) {
        SizeWithout(m, id);
        TakenCount(m - {id}, limit, Grown(cur, m[id]));
      }
    }
  }

  /** Whatever the limit, no more is taken than there is, and something when one entry fits. */
  lemma {:induction false} TakenBounds(m: Pending, limit: nat, cur: nat)
    ensures |Taken(m, limit, cur)| <= |m|
    ensures m != map[] && cur == 0 && 10 < limit ==> |Taken(m, limit, cur)| > 0
    decreases |m|
  {
    if m != map[] && Room(limit, cur, m[Begin(m)]) {
      var id := Begin(m);
      SizeWithout(m, id);
      TakenBounds(m - {id}, limit, Grown(cur, m[id]));
    }
  }

  /** With times throughout, every id brings its own. */
  lemma {:induction false} TimesMatchIds(m: Pending, ids: seq<nat>)
    requires AllIn(ids, m) && AllTimed(m)
    ensures |TimesOf(m, ids)| == |ids| && forall i :: 0 <= i < |ids| ==> TimesOf(m, ids)[i] == m[ids[i]]
  {
    if ids != [] {
      TimesMatchIds(m, ids[..|ids| - 1]);
    }
  }

  /** Entry `i` follows the one before it, or that one is id 0. */
  predicate Follows(ids: seq<nat>, i: nat)
    requires 0 < i < |ids|
  {
    ids[i] == ids[i - 1] + 1 || (i == 1 && ids[0] == 0)
  }

  lemma LastFollows(ids: seq<nat>)
    requires |ids| >= 2 && Ascending(ids) && Below(ids, UINT16)
    ensures var n := |ids|;
            ids[n - 2] == 0 || ids[n - 2] == (ids[n - 1] - 1) % UINT16 <==> Follows(ids, n - 1)
  {
    var n := |ids|;
    if n > 2 { assert ids[0] < ids[n - 2]; }
    assert ids[n - 2] < ids[n - 1] < UINT16;
  }

  /** The continuity test of ascending 16-bit ids holds exactly when they are consecutive, but
      for a gap right behind id 0, which it does not see. */
  lemma {:induction false} ContinuousIff(ids: seq<nat>)
    requires Ascending(ids) && Below(ids, UINT16)
    ensures Continuous(ids) <==> forall i :: 0 < i < |ids| ==> Follows(ids, i)
  {
    var n := |ids|;
    if n >= 2 {
      var front := ids[..n - 1];
      ContinuousIff(front);
      LastFollows(ids);
      forall i | 0 < i < n - 1 ensures Follows(front, i) <==> Follows(ids, i) {}
    }
  }

  /** What is subtracted from the running size: 10 for each entry taken, and what the first one
      left behind was tried with. */
  lemma {:induction false} SpentCount(m: Pending, limit: nat, cur: nat)
    requires AllTimed(m) && cur <= limit <= 65525
    ensures var n := |Taken(m, limit, cur)|;
            Spent(m, limit, cur) == cur + 10 * n + if n == |m| then 0 else if limit <= cur + 10 * n + 8 then 8 else 10
    decreases |m|
  {
    if m != map[] {
      var id := Begin(m);
      TakenSize(m, limit, cur);
      SpentStep(m, limit, cur);
      TimedRoom(limit, cur, m[id]);
      SizeWithout(m, id);
      if Room(limit, cur, m[id]) { SpentCount(m - {id}, limit, Grown(cur, m[id])); } else { TimedStop(limit, cur, m[id]); }
    }
  }

  lemma {:induction false} SpentStep(m: Pending, limit: nat, cur: nat)
    requires m != map[]
    ensures Spent(m, limit, cur) == if Room(limit, cur, m[Begin(m)]) then Spent(m - {Begin(m)}, limit, Grown(cur, m[Begin(m)]))
                                    else Stopped(limit, cur, m[Begin(m)])
  {
  }

  lemma TimedStop(limit: nat, cur: nat, time: nat)
    requires time != 0 && cur <= limit <= 65525 && !Room(limit, cur, time)
    ensures Stopped(limit, cur, time) == cur + if limit <= cur + 8 then 8 else 10
  {
  }

  /** A running size of 10 for each pending ack stays one if and only if everything was taken. */
  lemma {:induction false} SizeStaysExactIff(m: Pending, limit: nat)
    requires AllTimed(m) && limit <= 65525
    ensures var n := |Taken(m, limit, 0)|;
            (10 * |m| - Spent(m, limit, 0)) % UINT32 == (10 * (|m| - n)) % UINT32 <==> n == |m|
  {
    SpentCount(m, limit, 0);
    ModApart(10 * (|m| - |Taken(m, limit, 0)|), 8);
    ModApart(10 * (|m| - |Taken(m, limit, 0)|), 10);
  }

  lemma ModApart(x: int, d: int)
    requires 0 < d < UINT32
    ensures (x - d) % UINT32 != x % UINT32
  {
  }

  // ---------------------------------------------------------------- without times

  ghost predicate NoneTimed(m: Pending) { forall id :: id in m ==> m[id] == 0 }

  /** The most entries without a time that stay under a limit, 2 bytes each. */
  function BareQuota(limit: nat): nat { if limit == 0 then 0 else (limit - 1) / 2 }

  lemma BareQuotaStep(room: nat)
    ensures BareQuota(room) == if room <= 2 then 0 else BareQuota(room - 2) + 1
  {
  }

  lemma BareRoom(limit: nat, cur: nat)
    requires cur <= limit <= 65533
    ensures Room(limit, cur, 0) <==> limit - cur > 2
    ensures Grown(cur, 0) == cur + 2
  {
  }

  /** Without times the number taken is the largest `n` with 2n below the limit, or everything; and
      what is subtracted from the running size is 2 for each, and 2 more when one is left behind. */
  lemma {:induction false} BareCount(m: Pending, limit: nat, cur: nat)
    requires NoneTimed(m) && cur <= limit <= 65533
    ensures var n := |Taken(m, limit, cur)|;
            n == Min(|m|, BareQuota(limit - cur)) && Spent(m, limit, cur) == cur + 2 * n + if n == |m| then 0 else 2
    decreases |m|
  {
    if m != map[] {
      var id := Begin(m);
      TakenSize(m, limit, cur);
      BareRoom(limit, cur);
      BareQuotaStep(limit - cur);
      if Room(limit, cur, 0) {
        SizeWithout(m, id);
        BareCount(m - {id}, limit, Grown(cur, 0));
      }
    }
  }

  /** Under a limit near the top of the 16 bits everything is taken, or far more than a packet holds. */
  lemma {:induction false} BareMany(m: Pending, limit: Uint16, cur: nat)
    requires NoneTimed(m) && cur <= 2002 && limit >= 10000
    ensures |Taken(m, limit, cur)| >= Min(|m|, (2003 - cur) / 2)
    decreases |m|
  {
    if m != map[] && cur <= 2001 {
      var id := Begin(m);
      TakenSize(m, limit, cur);
      assert Room(limit, cur, 0) && Grown(cur, 0) == cur + 2;
      SizeWithout(m, id);
      if cur <= 2000 { BareMany(m - {id}, limit, cur + 2); }
    }
  }

  lemma {:induction false} BareTimes(m: Pending, ids: seq<nat>)
    requires AllIn(ids, m) && NoneTimed(m)
    ensures TimesOf(m, ids) == []
  {
    if ids != [] { BareTimes(m, ids[..|ids| - 1]); }
  }
}
