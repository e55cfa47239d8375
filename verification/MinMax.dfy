/** The windowed max filter of net/controller/OsCommon.h: three samples that stand for an
    unbounded history.

    Times and values are 32-bit unsigned.  The history carries true times; the filter sees
    them modulo 2^32, so the theorems also cover a wrapping clock.
 */
module MinMax {
  import opened Bytes

  datatype Sample = Sample(t: Uint32, v: Uint32)

  datatype Best = Best(s0: Sample, s1: Sample, s2: Sample)

  /** Unsigned subtraction. */
  function Sub(a: Uint32, b: Uint32): Uint32 { (a - b) % UINT32 }

  // ---------------------------------------------------------------- what a call does

  /** The new sample takes the place of the choices it reaches. */
  ghost function Placed(m: Best, val: Sample): Best {
    if val.v >= m.s1.v then Best(m.s0, val, val) else if val.v >= m.s2.v then Best(m.s0, m.s1, val) else m
  }

  ghost function Shifted(m: Best, val: Sample): Best { Best(m.s1, m.s2, val) }

  /** Time moves on: an expired first choice gives way, and late in the window fresh second and
      third choices are taken. */
  ghost function Aged(m: Best, win: Uint32, val: Sample): Best {
    var dt := Sub(val.t, m.s0.t);
    if dt > win then
      if Sub(val.t, m.s1.t) > win then Shifted(Shifted(m, val), val) else Shifted(m, val)
    else if m.s1.t == m.s0.t && dt > win / 4 then Best(m.s0, val, val)
    else if m.s2.t == m.s1.t && dt > win / 2 then Best(m.s0, m.s1, val)
    else m
  }

  ghost predicate Forgets(m: Best, win: Uint32, val: Sample) { val.v >= m.s0.v || Sub(val.t, m.s2.t) > win }

  ghost function Updated(m: Best, win: Uint32, val: Sample): Best {
    if Forgets(m, win, val) then Best(val, val, val) else Aged(Placed(m, val), win, val)
  }

  // ---------------------------------------------------------------- the filter as written

  class Filter {
    const s: array<Sample>

    ghost predicate Valid() { s.Length == 3 }

    ghost function View(): Best
      requires Valid()
      reads s
    {
      Best(s[0], s[1], s[2])
    }

    constructor (t: Uint32, meas: Uint32)
      ensures Valid() && fresh(s) && View() == Best(Sample(t, meas), Sample(t, meas), Sample(t, meas))
    {
      s := new Sample[3](_ => Sample(t, meas));
    }

    method Get() returns (v: Uint32)
      requires Valid()
      ensures v == View().s0.v
    {
      v := s[0].v;
    }

    method Reset(t: Uint32, meas: Uint32) returns (v: Uint32)
      requires Valid()
      modifies s
      ensures View() == Best(Sample(t, meas), Sample(t, meas), Sample(t, meas)) && v == meas
    {
      var val := Sample(t, meas);
      s[0] := val;
      s[1] := s[0];
      s[2] := s[1];
      return s[0].v;
    }

    method SubwinUpdate(win: Uint32, val: Sample) returns (v: Uint32)
      requires Valid()
      modifies s
      ensures View() == Aged(old(View()), win, val) && v == View().s0.v
    {
      var dt := Sub(val.t, s[0].t);
      if dt > win {
        s[0] := s[1];
        s[1] := s[2];
        s[2] := val;
        if Sub(val.t, s[0].t) > win {
          s[0] := s[1];
          s[1] := s[2];
          s[2] := val;
        }
      } else if s[1].t == s[0].t && dt > win / 4 {
        s[1] := val;
        s[2] := s[1];
      } else if s[2].t == s[1].t && dt > win / 2 {
        s[2] := val;
      }
      return s[0].v;
    }

    method RunningMax(win: Uint32, t: Uint32, meas: Uint32) returns (v: Uint32)
      requires Valid()
      modifies s
      ensures View() == Updated(old(View()), win, Sample(t, meas)) && v == View().s0.v
    {
      var val := Sample(t, meas);
      if val.v >= s[0].v || Sub(val.t, s[2].t) > win {
        v := Reset(t, meas);
        return;
      }
      if val.v >= s[1].v {
        s[1] := val;
        s[2] := s[1];
      } else if val.v >= s[2].v {
        s[2] := val;
      }
      v := SubwinUpdate(win, val);
    }
  }

  // ---------------------------------------------------------------- histories

  /** A measurement at a true time. */
  datatype Point = Point(time: nat, v: Uint32) {
    function Stamp(): Sample { Sample(time % UINT32, v) }
  }

  /** Times do not go back; and either they are 32-bit times that never wrap, or, on a clock that
      wraps, no gap is so long that it comes round within a window of it. */
  ghost predicate IsHistory(h: seq<Point>, win: Uint32) {
    && h != []
    && (forall i, j :: 0 <= i <= j < |h| ==> h[i].time <= h[j].time)
    && ((forall i :: 0 <= i < |h| ==> h[i].time < UINT32) || (forall i :: 0 <= i < |h| - 1 ==> h[i + 1].time - h[i].time + win < UINT32))
  }

  /** The filter after a history: reset at the first point, then one call a point. */
  ghost function After(h: seq<Point>, win: Uint32): Best
    requires h != []
  {
    var val := h[|h| - 1].Stamp();
    if |h| == 1 then Best(val, val, val) else Updated(After(h[..|h| - 1], win), win, val)
  }

  /** No point after `k` exceeds it. */
  ghost predicate Stands(h: seq<Point>, k: int) {
    0 <= k < |h| && forall j :: k <= j < |h| ==> h[j].v <= h[k].v
  }

  ghost predicate Summary(h: seq<Point>, win: Uint32, m: Best, k0: int, k1: int, k2: int) {
    && h != [] && 0 <= k0 <= k1 <= k2 < |h|
    && m == Best(h[k0].Stamp(), h[k1].Stamp(), h[k2].Stamp())
    && Stands(h, k0) && Stands(h, k1) && Stands(h, k2)
    && h[|h| - 1].time - h[k0].time <= win
  }

  /** On times less than a word apart the wrapped difference is the true one. */
  lemma TrueDifference(a: nat, b: nat)
    requires b <= a < b + UINT32
    ensures Sub(a % UINT32, b % UINT32) == a - b
  {
  }

  lemma StandsOn(h: seq<Point>, p: Point, k: int)
    requires Stands(h, k)
    ensures p.v <= h[k].v ==> Stands(h + [p], k)
  {
  }

  /** The filter sees the true age of a choice that was in the window. */
  lemma AgeIsTrue(h: seq<Point>, p: Point, win: Uint32, k0: int, k: int)
    requires h != [] && IsHistory(h + [p], win) && 0 <= k0 <= k < |h| && h[|h| - 1].time - h[k0].time <= win
    ensures Sub(p.Stamp().t, h[k].Stamp().t) == p.time - h[k].time
  {
    var g, n := h + [p], |h|;
    assert g[n] == p && g[n - 1] == h[n - 1] && g[k] == h[k] && g[k0] == h[k0];
    assert g[k0].time <= g[k].time <= g[n].time;
    if !(forall i :: 0 <= i < |g| ==> g[i].time < UINT32) { assert g[n - 1 + 1].time - g[n - 1].time + win < UINT32; }
    TrueDifference(p.time, h[k].time);
  }

  /** The index after one more point at which each choice now stands. */
  lemma UpdateKeepsSummary(h: seq<Point>, p: Point, win: Uint32, m: Best, k0: int, k1: int, k2: int) returns (i0: int, i1: int, i2: int)
    requires Summary(h, win, m, k0, k1, k2) && IsHistory(h + [p], win)
    ensures Summary(h + [p], win, Updated(m, win, p.Stamp()), i0, i1, i2)
  {
    var g, n, val := h + [p], |h|, p.Stamp();
    AgeIsTrue(h, p, win, k0, k0);
    AgeIsTrue(h, p, win, k0, k1);
    AgeIsTrue(h, p, win, k0, k2);
    if Forgets(m, win, val) {
      i0, i1, i2 := n, n, n;
      return;
    }
    StandsOn(h, p, k0);
    var j1, j2 := if p.v >= h[k1].v then n else k1, if p.v >= h[k2].v then n else k2;
    if j1 == k1 { StandsOn(h, p, k1); }
    if j2 == k2 { StandsOn(h, p, k2); }
    TrueDifference(p.time, g[j1].time);
    i0, i1, i2 := AgeKeepsSummary(g, win, Placed(m, val), k0, j1, j2);
  }

  /** Three standing points of a history, the third recent enough. */
  lemma {:induction false} AgeKeepsSummary(g: seq<Point>, win: Uint32, m: Best, k0: int, k1: int, k2: int) returns (i0: int, i1: int, i2: int)
    requires g != [] && 0 <= k0 <= k1 <= k2 < |g| && m == Best(g[k0].Stamp(), g[k1].Stamp(), g[k2].Stamp())
    requires Stands(g, k0) && Stands(g, k1) && Stands(g, k2)
    requires var now := g[|g| - 1];
             && (forall k :: k == k0 || k == k1 ==> Sub(now.Stamp().t, g[k].Stamp().t) == now.time - g[k].time)
             && now.time - g[k2].time <= win
    ensures Summary(g, win, Aged(m, win, g[|g| - 1].Stamp()), i0, i1, i2)
  {
    var n := |g| - 1;
    i0, i1, i2 := k0, k1, k2;
    var dt := g[n].time - g[k0].time;
    if dt > win {
      i0, i1, i2 := k1, k2, n;
      if g[n].time - g[k1].time > win {
        i0, i1, i2 := k2, n, n;
      }
    } else if m.s1.t == m.s0.t && dt > win / 4 {
      i1, i2 := n, n;
    } else if m.s2.t == m.s1.t && dt > win / 2 {
      i2 := n;
    }
  }

  lemma {:induction false} EveryHistoryIsSummarised(h: seq<Point>, win: Uint32) returns (k0: int, k1: int, k2: int)
    requires IsHistory(h, win)
    ensures Summary(h, win, After(h, win), k0, k1, k2)
  {
    if |h| == 1 {
      k0, k1, k2 := 0, 0, 0;
    } else {
      var front, p := h[..|h| - 1], h[|h| - 1];
      assert h == front + [p];
      k0, k1, k2 := EveryHistoryIsSummarised(front, win);
      k0, k1, k2 := UpdateKeepsSummary(front, p, win, After(front, win), k0, k1, k2);
    }
  }

  /** The result is a real sample, no older than the window, and the maximum of the history from
      that sample on; the second and third choices are real, later and no larger. */
  lemma {:induction false} ResultIsMaximumOfSuffix(h: seq<Point>, win: Uint32)
    requires IsHistory(h, win)
    ensures exists k0, k1, k2 :: Summary(h, win, After(h, win), k0, k1, k2)
    ensures var m, n := After(h, win), |h| - 1;
            && m.s0.v >= m.s1.v >= m.s2.v >= h[n].v
            && exists k :: 0 <= k <= n && m.s0.v == h[k].v && h[n].time - h[k].time <= win && forall j :: k <= j <= n ==> h[j].v <= m.s0.v
  {
    var k0, k1, k2 := EveryHistoryIsSummarised(h, win);
    assert After(h, win).s0.v == h[k0].v;
  }

  /** So the result lies between the newest sample and the true maximum of the window. */
  lemma {:induction false} ResultIsBetween(h: seq<Point>, win: Uint32, max: Uint32)
    requires IsHistory(h, win)
    requires forall j :: 0 <= j < |h| && h[|h| - 1].time - h[j].time <= win ==> h[j].v <= max
    ensures h[|h| - 1].v <= After(h, win).s0.v <= max
  {
    ResultIsMaximumOfSuffix(h, win);
  }

  // ---------------------------------------------------------------- the fallback choices

  /** An expired first choice is replaced by the best remaining choice that is not expired. */
  lemma {:induction false} ExpiryPromotes(m: Best, win: Uint32, val: Sample)
    requires !Forgets(m, win, val) && Sub(val.t, m.s0.t) > win
    ensures var p := Placed(m, val);
            Updated(m, win, val).s0 == if Sub(val.t, p.s1.t) <= win then p.s1 else p.s2
    ensures Sub(val.t, Updated(m, win, val).s0.t) <= win
    // the remaining choices move up, and the new sample fills the places behind them
    ensures var p, r := Placed(m, val), Updated(m, win, val);
            r.s2 == val && r.s1 == if Sub(val.t, p.s1.t) <= win then p.s2 else val
  {
  }

  /** While the first choice holds, past a quarter of the window there is a second choice from
      another time, and past half of it a third, unless the second is brand new. */
  lemma {:induction false} FallbacksSpread(m: Best, win: Uint32, val: Sample)
    requires !Forgets(m, win, val) && Sub(val.t, m.s0.t) <= win
    ensures var r, dt := Updated(m, win, val), Sub(val.t, m.s0.t);
            && r.s0 == m.s0
            && (dt > win / 4 ==> r.s1.t != r.s0.t)
            && (dt > win / 2 ==> r.s2.t != r.s1.t || r.s1.t == val.t)
  {
  }

  /** While the first choice is neither beaten nor expired, a second choice from another time stays
      until a sample reaches it, and so does a third from yet another. */
  lemma {:induction false} ChoicesStay(m: Best, win: Uint32, val: Sample)
    requires !Forgets(m, win, val) && Sub(val.t, m.s0.t) <= win && m.s1.t != m.s0.t && val.v < m.s1.v
    ensures var r := Updated(m, win, val);
            && r.s0 == m.s0 && r.s1 == m.s1
            && (m.s2.t != m.s1.t && val.v < m.s2.v ==> r.s2 == m.s2)
            && (m.s2.t != m.s1.t && val.v >= m.s2.v ==> r.s2 == val)
  {
  }

  /** A choice that is in the window and larger than the new sample is given up. */
  ghost predicate GivesUp(m: Best, win: Uint32, val: Sample) {
    exists c: Sample :: (c == m.s1 || c == m.s2) && Sub(val.t, c.t) <= win && c.v > val.v
      && var r := Updated(m, win, val); c != r.s0 && c != r.s1 && c != r.s2
  }

  /** When a call other than a reset gives up a larger choice: exactly when it takes the second anew
      and a third, or a second of the first's time, is larger than the new sample; or takes the third
      anew and a third of the second's time is larger. */
  lemma {:induction false} GivesUpIff(m: Best, win: Uint32, val: Sample)
    requires !Forgets(m, win, val) && m.s0.v >= m.s1.v >= m.s2.v
    ensures var dt := Sub(val.t, m.s0.t);
            var anew := m.s1.t == m.s0.t && dt > win / 4;
            GivesUp(m, win, val)
            <==> dt <= win
                 && if anew then (m.s1 != m.s0 && m.s1.v > val.v) || (m.s2 != m.s0 && m.s2.v > val.v)
                    else m.s2.t == m.s1.t && dt > win / 2 && m.s2 != m.s1 && m.s2.v > val.v
  {
    var r := Updated(m, win, val);
    if m.s1.v > val.v && m.s1 != r.s0 && m.s1 != r.s1 && m.s1 != r.s2 && Sub(val.t, m.s1.t) <= win { assert GivesUp(m, win, val); }
    if m.s2.v > val.v && m.s2 != r.s0 && m.s2 != r.s1 && m.s2 != r.s2 { assert GivesUp(m, win, val); }
  }

  // ---------------------------------------------------------------- the first window after a reset

  /** The first point is the largest and no older than the window. */
  ghost predicate FirstWindow(h: seq<Point>, win: Uint32) {
    && h != []
    && (forall i, j :: 0 <= i <= j < |h| ==> h[i].time <= h[j].time)
    && (forall j :: 0 < j < |h| ==> h[j].v < h[0].v)
    && h[|h| - 1].time <= h[0].time + win
  }

  /** Point `j` comes more than a quarter of the window after the first. */
  ghost predicate PastQuarter(h: seq<Point>, win: Uint32, j: int) { 0 <= j < |h| && h[j].time > h[0].time + win / 4 }

  /** Point `j` comes after the second choice, and more than half of the window after the first. */
  ghost predicate PastHalf(h: seq<Point>, win: Uint32, k1: int, j: int) {
    0 <= k1 < j < |h| && h[j].time > h[0].time + win / 2 && h[j].time > h[k1].time
  }

  /** The second choice is the largest point past the quarter, the last of them where several are,
      and the first choice as long as there is none. */
  ghost predicate IsSecond(h: seq<Point>, win: Uint32, k1: int) {
    && 0 <= k1 < |h|
    && if PastQuarter(h, win, |h| - 1)
       then PastQuarter(h, win, k1) && forall j :: PastQuarter(h, win, j) ==> h[j].v <= h[k1].v && (j > k1 ==> h[j].v < h[k1].v)
       else k1 == 0
  }

  /** The third choice is the largest point past the half and behind the second, likewise; as long as
      there is none it is the second, or the newest of those that came at the second's time. */
  ghost predicate IsThird(h: seq<Point>, win: Uint32, k1: int, k2: int) {
    && 0 <= k1 <= k2 < |h|
    && if PastHalf(h, win, k1, |h| - 1)
       then PastHalf(h, win, k1, k2) && forall j :: PastHalf(h, win, k1, j) ==> h[j].v <= h[k2].v && (j > k2 ==> h[j].v < h[k2].v)
       else k2 == if h[|h| - 1].time > h[0].time + win / 2 then |h| - 1 else k1
  }

  ghost predicate HasChoices(h: seq<Point>, win: Uint32, m: Best, k1: int, k2: int) {
    IsSecond(h, win, k1) && IsThird(h, win, k1, k2) && m == Best(h[0].Stamp(), h[k1].Stamp(), h[k2].Stamp())
  }

  /** Within a window, stamps are equal exactly at equal times, and apart by the true difference. */
  lemma StampsInWindow(h: seq<Point>, win: Uint32, i: int, j: int)
    requires FirstWindow(h, win) && 0 <= i <= j < |h|
    ensures Sub(h[j].Stamp().t, h[i].Stamp().t) == h[j].time - h[i].time <= win
    ensures h[i].Stamp().t == h[j].Stamp().t <==> h[i].time == h[j].time
  {
    assert h[0].time <= h[i].time <= h[j].time <= h[|h| - 1].time;
    TrueDifference(h[j].time, h[i].time);
  }

  lemma {:induction false} ShorterWindow(h: seq<Point>, win: Uint32)
    requires FirstWindow(h, win) && |h| > 1
    ensures FirstWindow(h[..|h| - 1], win)
  {
  }

  /** Where one more point leaves the second and the third choice. */
  ghost function SecondAfter(h: seq<Point>, win: Uint32, k1: int): int
    requires |h| > 1 && 0 <= k1 < |h| - 1
  {
    if h[|h| - 1].v >= h[k1].v || (k1 == 0 && PastQuarter(h, win, |h| - 1)) then |h| - 1 else k1
  }

  ghost function ThirdAfter(h: seq<Point>, win: Uint32, k1: int, k2: int): int
    requires |h| > 1 && 0 <= k1 < |h| - 1 && 0 <= k2 < |h| - 1
  {
    var n := |h| - 1;
    if SecondAfter(h, win, k1) == n || h[n].v >= h[k2].v || (h[k2].time == h[k1].time && h[n].time > h[0].time + win / 2)
    then n else k2
  }

  lemma {:induction false} UpdatedTo(h: seq<Point>, win: Uint32, m: Best, k1: int, k2: int)
    requires FirstWindow(h, win) && |h| > 1 && HasChoices(h[..|h| - 1], win, m, k1, k2)
    ensures Updated(m, win, h[|h| - 1].Stamp())
            == Best(h[0].Stamp(), h[SecondAfter(h, win, k1)].Stamp(), h[ThirdAfter(h, win, k1, k2)].Stamp())
  {
    var n := |h| - 1;
    assert h[..n][|h[..n]| - 1] == h[n - 1];
    StampsInWindow(h, win, 0, n);
    StampsInWindow(h, win, k2, n);
    StampsInWindow(h, win, 0, k1);
    StampsInWindow(h, win, k1, k2);
  }

  lemma {:induction false} SecondGoesOn(h: seq<Point>, win: Uint32, k1: int)
    requires FirstWindow(h, win) && |h| > 1 && IsSecond(h[..|h| - 1], win, k1)
    ensures IsSecond(h, win, SecondAfter(h, win, k1))
  {
    var g, n := h[..|h| - 1], |h| - 1;
    forall j | 0 <= j < n ensures PastQuarter(h, win, j) <==> PastQuarter(g, win, j) {}
    assert !PastQuarter(h, win, n) ==> !PastQuarter(h, win, n - 1);
  }

  lemma {:induction false} ThirdGoesOn(h: seq<Point>, win: Uint32, k1: int, k2: int)
    requires FirstWindow(h, win) && |h| > 1 && IsSecond(h[..|h| - 1], win, k1) && IsThird(h[..|h| - 1], win, k1, k2)
    ensures IsThird(h, win, SecondAfter(h, win, k1), ThirdAfter(h, win, k1, k2))
  {
    var g, n := h[..|h| - 1], |h| - 1;
    forall j | 0 <= j < n ensures PastHalf(h, win, k1, j) <==> PastHalf(g, win, k1, j) {}
  }

  /** One more point: the choices are the right ones again. */
  lemma {:induction false} ChoicesGoOn(h: seq<Point>, win: Uint32, m: Best, k1: int, k2: int) returns (i1: int, i2: int)
    requires FirstWindow(h, win) && |h| > 1 && HasChoices(h[..|h| - 1], win, m, k1, k2)
    ensures HasChoices(h, win, Updated(m, win, h[|h| - 1].Stamp()), i1, i2)
  {
    i1, i2 := SecondAfter(h, win, k1), ThirdAfter(h, win, k1, k2);
    SecondGoesOn(h, win, k1);
    ThirdGoesOn(h, win, k1, k2);
    UpdatedTo(h, win, m, k1, k2);
  }

  /** In the first window after a reset the three choices are exactly these. */
  lemma {:induction false} FirstWindowIsExact(h: seq<Point>, win: Uint32) returns (k1: int, k2: int)
    requires FirstWindow(h, win)
    ensures HasChoices(h, win, After(h, win), k1, k2)
  {
    if |h| == 1 {
      k1, k2 := 0, 0;
    } else {
      ShorterWindow(h, win);
      k1, k2 := FirstWindowIsExact(h[..|h| - 1], win);
      k1, k2 := ChoicesGoOn(h, win, After(h[..|h| - 1], win), k1, k2);
    }
  }

  // ---------------------------------------------------------------- from a reset on

  /** The last `|h| - r` points start with one at which the filter is reset. */
  ghost predicate ResetsAt(h: seq<Point>, win: Uint32, r: nat) {
    r < |h| && (r == 0 || Forgets(After(h[..r], win), win, h[r].Stamp()))
  }

  lemma {:induction false} ResetHere(h: seq<Point>, win: Uint32)
    requires h != [] && ResetsAt(h, win, |h| - 1)
    ensures After(h, win) == After(h[|h| - 1..], win)
  {
    var val := h[|h| - 1].Stamp();
    assert h[|h| - 1..] == [h[|h| - 1]];
    assert After(h, win) == Best(val, val, val);
  }

  lemma {:induction false} SameUpdate(h: seq<Point>, g: seq<Point>, win: Uint32)
    requires |h| > 1 && |g| > 1 && h[|h| - 1] == g[|g| - 1] && After(h[..|h| - 1], win) == After(g[..|g| - 1], win)
    ensures After(h, win) == After(g, win)
  {
  }

  lemma {:induction false} FrontResets(h: seq<Point>, win: Uint32, r: nat)
    requires ResetsAt(h, win, r) && r < |h| - 1
    ensures ResetsAt(h[..|h| - 1], win, r)
  {
    assert h[..|h| - 1][..r] == h[..r];
  }

  lemma FrontOfRest(h: seq<Point>, r: nat)
    requires r < |h| - 1
    ensures h[r..][..|h[r..]| - 1] == h[..|h| - 1][r..]
  {
  }

  /** What came before a reset is forgotten. */
  lemma {:induction false} ResetForgets(h: seq<Point>, win: Uint32, r: nat)
    requires ResetsAt(h, win, r)
    ensures After(h, win) == After(h[r..], win)
    decreases |h|
  {
    var n := |h| - 1;
    if r == n {
      ResetHere(h, win);
    } else {
      FrontResets(h, win, r);
      ResetForgets(h[..n], win, r);
      FrontOfRest(h, r);
      SameUpdate(h, h[r..], win);
    }
  }

  /** Over every history: from a reset on, as long as that sample is neither beaten nor older than the
      window, it is the result, and the other two choices are the ones described. */
  lemma {:induction false} ChoicesSinceReset(h: seq<Point>, win: Uint32, r: nat) returns (k1: int, k2: int)
    requires ResetsAt(h, win, r) && FirstWindow(h[r..], win)
    ensures HasChoices(h[r..], win, After(h, win), k1, k2)
  {
    ResetForgets(h, win, r);
    k1, k2 := FirstWindowIsExact(h[r..], win);
  }

  /** The choices as the next sample, which finds the first one expired, sees them. */
  lemma {:induction false} ExpiryIn(h: seq<Point>, p: Point, win: Uint32, k: int)
    requires FirstWindow(h, win) && 0 <= k < |h| && h[|h| - 1].time <= p.time < h[0].time + UINT32
    ensures Sub(p.Stamp().t, h[k].Stamp().t) == p.time - h[k].time
  {
    assert h[0].time <= h[k].time <= h[|h| - 1].time;
    TrueDifference(p.time, h[k].time);
  }

  /** The first time the first choice expires, the result is the largest sample past the quarter, the
      new one included, as long as that one is in the window. */
  lemma {:induction false} FirstExpiryIsExact(h: seq<Point>, p: Point, win: Uint32, i: int)
    requires FirstWindow(h, win) && p.v < h[0].v && h[|h| - 1].time <= p.time && h[0].time + win < p.time < h[0].time + UINT32
    requires PastQuarter(h + [p], win, i) && p.time - (h + [p])[i].time <= win
    requires forall j :: PastQuarter(h + [p], win, j) ==> (h + [p])[j].v <= (h + [p])[i].v
    ensures After(h + [p], win).s0.v == (h + [p])[i].v
  {
    var k1, k2 := FirstWindowIsExact(h, win);
    var g, n, m := h + [p], |h|, After(h, win);
    assert g[..n] == h && g[n] == p;
    forall j | 0 <= j < n ensures g[j] == h[j] && (PastQuarter(g, win, j) <==> PastQuarter(h, win, j)) {}
    ExpiryIn(h, p, win, 0);
    ExpiryIn(h, p, win, k1);
    ExpiryIn(h, p, win, k2);
    assert PastQuarter(g, win, n);
    if i < n { assert PastQuarter(h, win, n - 1) && h[k1].v == h[i].v && k1 >= i; }
  }

  // ---------------------------------------------------------------- no bound further on

  /** Seven points that no clock wraps. */
  function Unlucky(win: nat): seq<Point>
    requires win >= 4
  {
    [Point(0, 5), Point(win - 1, 4), Point(win, 3), Point(win + 1, 2), Point(2 * win - 1, 1), Point(2 * win, 0), Point(2 * win + 2, 0)]
  }

  lemma SubPlain(a: Uint32, b: Uint32)
    requires b <= a
    ensures Sub(a, b) == a - b
  {
  }

  /** A second choice, and a third, is taken late in the window. */
  lemma ChoiceTaken(m: Best, win: Uint32, val: Sample)
    requires val.v < m.s2.v <= m.s1.v <= m.s0.v && m.s0.t <= m.s1.t <= m.s2.t <= val.t <= m.s0.t + win
    ensures m.s1.t == m.s0.t && val.t - m.s0.t > win / 4 ==> Updated(m, win, val) == Best(m.s0, val, val)
    ensures m.s1.t != m.s0.t && m.s2.t == m.s1.t && val.t - m.s0.t > win / 2 ==> Updated(m, win, val) == Best(m.s0, m.s1, val)
    ensures m.s1.t != m.s0.t && m.s2.t != m.s1.t ==> Updated(m, win, val) == m
  {
    SubPlain(val.t, m.s0.t);
    SubPlain(val.t, m.s2.t);
  }

  /** The first choice expires, and the second takes its place. */
  lemma FirstExpires(m: Best, win: Uint32, val: Sample)
    requires val.v < m.s2.v <= m.s1.v <= m.s0.v && m.s0.t <= m.s1.t <= m.s2.t <= val.t <= m.s1.t + win && val.t > m.s0.t + win
    ensures Updated(m, win, val) == Best(m.s1, m.s2, val)
  {
    SubPlain(val.t, m.s0.t);
    SubPlain(val.t, m.s1.t);
    SubPlain(val.t, m.s2.t);
  }

  /** The first and the second expire, and the third is beaten. */
  lemma TwoExpire(m: Best, win: Uint32, val: Sample)
    requires m.s2.v <= val.v < m.s1.v <= m.s0.v && m.s0.t <= m.s1.t <= m.s2.t <= val.t <= m.s2.t + win && val.t > m.s1.t + win
    ensures Updated(m, win, val) == Best(val, val, val)
  {
    SubPlain(val.t, m.s0.t);
    SubPlain(val.t, m.s1.t);
    SubPlain(val.t, m.s2.t);
  }

  lemma {:induction false} OnePointMore(h: seq<Point>, win: Uint32, n: nat, m: Best, r: Best)
    requires 0 < n < |h| && h[n].time < UINT32
    requires After(h[..n], win) == m && Updated(m, win, Sample(h[n].time, h[n].v)) == r
    ensures After(h[..n + 1], win) == r
  {
    assert h[..n + 1][..n] == h[..n];
  }

  lemma {:induction false} UnluckyFirst(win: Uint32, h: seq<Point>)
    requires 4 <= win && h == Unlucky(win)
    ensures After(h[..1], win) == Best(Sample(0, 5), Sample(0, 5), Sample(0, 5))
  {
    assert h[..1] == [Point(0, 5)] && Point(0, 5).Stamp() == Sample(0, 5);
  }

  /** A second and a third choice are taken, and the first expires. */
  lemma {:induction false} UnluckyStart(win: Uint32, h: seq<Point>)
    requires 4 <= win && 2 * win + 2 < UINT32 && h == Unlucky(win)
    ensures After(h[..4], win) == Best(Sample(win - 1, 4), Sample(win, 3), Sample(win + 1, 2))
  {
    var a, b, c, d := Sample(0, 5), Sample(win - 1, 4), Sample(win, 3), Sample(win + 1, 2);
    UnluckyFirst(win, h);
    ChoiceTaken(Best(a, a, a), win, b);
    OnePointMore(h, win, 1, Best(a, a, a), Best(a, b, b));
    ChoiceTaken(Best(a, b, b), win, c);
    OnePointMore(h, win, 2, Best(a, b, b), Best(a, b, c));
    FirstExpires(Best(a, b, c), win, d);
    OnePointMore(h, win, 3, Best(a, b, c), Best(b, c, d));
  }

  /** The first expires again, and then both of those that are left. */
  lemma {:induction false} UnluckyEnd(win: Uint32, h: seq<Point>)
    requires 4 <= win && 2 * win + 2 < UINT32 && h == Unlucky(win)
    requires After(h[..4], win) == Best(Sample(win - 1, 4), Sample(win, 3), Sample(win + 1, 2))
    ensures After(h, win).s0.v == 0
  {
    var b, c, d := Sample(win - 1, 4), Sample(win, 3), Sample(win + 1, 2);
    var e, f, g := Sample(2 * win - 1, 1), Sample(2 * win, 0), Sample(2 * win + 2, 0);
    ChoiceTaken(Best(b, c, d), win, e);
    OnePointMore(h, win, 4, Best(b, c, d), Best(b, c, d));
    FirstExpires(Best(b, c, d), win, f);
    OnePointMore(h, win, 5, Best(b, c, d), Best(c, d, f));
    TwoExpire(Best(c, d, f), win, g);
    OnePointMore(h, win, 6, Best(c, d, f), Best(g, g, g));
    assert h[..7] == h;
  }

  lemma UnluckyIsHistory(win: Uint32)
    requires 4 <= win && 2 * win + 2 < UINT32
    ensures IsHistory(Unlucky(win), win)
  {
  }

  /** From the second expiry on the result may be less than a sample three ticks old, whatever the
      window: the third choice of an expiry is the newest sample, and what comes shortly before it
      and is larger is forgotten. */
  lemma {:induction false} YoungSampleIsForgotten(win: Uint32)
    requires 4 <= win && 2 * win + 2 < UINT32
    ensures var h := Unlucky(win);
            IsHistory(h, win) && After(h, win).s0.v < h[4].v && h[6].time - h[4].time == 3
  {
    var h := Unlucky(win);
    UnluckyStart(win, h);
    UnluckyEnd(win, h);
    UnluckyIsHistory(win);
  }
}
