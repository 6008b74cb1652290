/** The copy of a ring that is published or saved: how far each cycle is
    thinned, what thinning keeps, and when the copy exceeds its bound. */
module HistoryPublish {
  import opened Basics
  import opened History
  import opened HistoryInvariants

  const QUARTER := 15 * MINUTE
  const COARSEST := 24 * HOUR
  const PUBLISH_STEPS := [0, QUARTER, 30 * MINUTE, HOUR, 2 * HOUR, 6 * HOUR, 12 * HOUR, COARSEST]

  // A saved span, in Unix seconds; an expected reset of zero is none.
  datatype StoredLock = StoredLock(from: int, to: int, end: LockEnd, expected: int)

  datatype WindowHistory = WindowHistory(cycles: seq<Cycle>, locks: seq<StoredLock>)

  // ----- thinning

  predicate Keeps(s: seq<Sample>, i: nat, step: nat)
    requires i < |s|
  {
    step == 0 || i == 0 || i == |s| - 1 || !SameStep(s[i + 1], s[i], step)
  }

  function ThinFrom(s: seq<Sample>, i: nat, step: nat): (out: seq<Sample>)
    requires i <= |s|
    ensures |out| <= |s| - i
    decreases |s| - i
  {
    if i == |s| then []
    else if Keeps(s, i, step) then [s[i]] + ThinFrom(s, i + 1, step)
    else ThinFrom(s, i + 1, step)
  }

  function Thin(s: seq<Sample>, step: nat): seq<Sample> { ThinFrom(s, 0, step) }

  function KeptFrom(s: seq<Sample>, i: nat, step: nat): nat
    requires i <= |s|
    decreases |s| - i
  {
    if i == |s| then 0 else (if Keeps(s, i, step) then 1 else 0) + KeptFrom(s, i + 1, step)
  }

  function KeptCount(cs: seq<Cycle>, step: nat): nat {
    if cs == [] then 0 else KeptCount(Front(cs), step) + KeptFrom(Last(cs).samples, 0, step)
  }

  lemma {:induction false} KeptIsThinned(s: seq<Sample>, i: nat, step: nat)
    requires i <= |s|
    ensures KeptFrom(s, i, step) == |ThinFrom(s, i, step)|
    decreases |s| - i
  {
    if i < |s| {
      KeptIsThinned(s, i + 1, step);
    }
  }

  // The last sample of each step.
  function LastPer(s: seq<Sample>, step: nat): (out: seq<Sample>)
    requires step > 0
    ensures s != [] ==> out != [] && Last(out) == Last(s) && SameStep(out[0], s[0], step)
    ensures |out| <= |s|
  {
    if |s| <= 1 then s
    else if SameStep(s[1], s[0], step) then LastPer(s[1..], step)
    else [s[0]] + LastPer(s[1..], step)
  }

  lemma {:induction false} ThinTail(s: seq<Sample>, i: nat, step: nat)
    requires 0 < i <= |s| && step > 0
    ensures ThinFrom(s, i, step) == LastPer(s[i..], step)
    decreases |s| - i
  {
    if i < |s| {
      ThinTail(s, i + 1, step);
      assert s[i..][1..] == s[i + 1..];
    }
  }

  // thin keeps the first sample and, of the rest, the last of each step.
  lemma ThinShape(s: seq<Sample>, step: nat)
    ensures step == 0 ==> Thin(s, step) == s
    ensures step > 0 ==> Thin(s, step) == if s == [] then [] else [s[0]] + LastPer(s[1..], step)
  {
    if step == 0 {
      ThinNothing(s, 0);
      assert s[0..] == s;
    } else if s != [] {
      ThinTail(s, 1, step);
    }
  }

  lemma {:induction false} ThinNothing(s: seq<Sample>, i: nat)
    requires i <= |s|
    ensures ThinFrom(s, i, 0) == s[i..]
    decreases |s| - i
  {
    if i < |s| {
      ThinNothing(s, i + 1);
    }
  }

  lemma {:induction false} ThinnedAre(s: seq<Sample>, k: nat, step: nat, i: nat)
    requires Ordered(s) && k <= |s| && i < |s|
    ensures s[i] in ThinFrom(s, k, step) <==> k <= i && Keeps(s, i, step)
    decreases |s| - k
  {
    if k < |s| {
      ThinnedAre(s, k + 1, step, i);
      assert i != k ==> s[i].at != s[k].at;
    }
  }

  lemma StepsInOrder(a: int, b: int, step: nat)
    requires step > 0 && a <= b
    ensures a / step <= b / step
  {
    BoundaryDiv(b, a / step, step);
    BoundaryDiv(a, a / step, step);
  }

  // thin keeps the first sample and each sample no later one shares a step
  // with, and no other.
  lemma ThinExact(s: seq<Sample>, step: nat, i: nat)
    requires Ordered(s) && step > 0 && i < |s|
    ensures s[i] in Thin(s, step) <==> i == 0 || forall j :: i < j < |s| ==> !SameStep(s[j], s[i], step)
  {
    ThinnedAre(s, 0, step, i);
    if i + 1 < |s| && !SameStep(s[i + 1], s[i], step) {
      forall j | i < j < |s|
        ensures !SameStep(s[j], s[i], step)
      {
        StepsInOrder(s[i].at, s[i + 1].at, step);
        assert s[i + 1].at <= s[j].at;
        StepsInOrder(s[i + 1].at, s[j].at, step);
      }
    }
  }

  // ----- thinning twice

  lemma AtLeastOnce(n: int, d: int)
    requires n >= 1 && d > 0
    ensures n * d >= d
  {
    assert (n - 1) * d >= 0;
  }

  lemma QuotientUnique(p: int, r: int, q: int, t: int, d: int)
    requires 0 <= r < d && 0 <= t < d && p * d + r == q * d + t
    ensures p == q
  {
    assert (q - p) * d == q * d - p * d && (p - q) * d == p * d - q * d;
    if p < q {
      AtLeastOnce(q - p, d);
    } else if q < p {
      AtLeastOnce(p - q, d);
    }
  }

  lemma Regroup(p: int, k: int, t: int, a: int)
    ensures (p * k + t) * a == p * (a * k) + t * a
  {
  }

  lemma StaysUnder(t: nat, k: nat, a: nat, r: nat)
    requires t < k && r < a
    ensures t * a + r < a * k
  {
    assert (k - 1 - t) * a >= 0;
    assert (k - 1 - t) * a == k * a - a - t * a;
  }

  lemma DivTwice(x: int, a: nat, k: nat)
    requires a > 0 && k > 0
    ensures a * k > 0 && x / (a * k) == x / a / k
  {
    var q, r := x / a, x % a;
    var p, t := q / k, q % k;
    assert x == q * a + r && q == p * k + t;
    Regroup(p, k, t, a);
    StaysUnder(t, k, a, r);
    assert x == p * (a * k) + (t * a + r);
    QuotientUnique(p, t * a + r, x / (a * k), x % (a * k), a * k);
  }

  lemma CoarserStep(x: Sample, y: Sample, a: nat, k: nat)
    requires a > 0 && k > 0 && SameStep(x, y, a)
    ensures a * k > 0 && SameStep(x, y, a * k)
  {
    DivTwice(x.at, a, k);
    DivTwice(y.at, a, k);
  }

  lemma {:induction false} LastPerTwice(s: seq<Sample>, a: nat, k: nat)
    requires a > 0 && k > 0
    ensures a * k > 0 && LastPer(LastPer(s, a), a * k) == LastPer(s, a * k)
  {
    var b := a * k;
    assert b > 0 by { DivTwice(0, a, k); }
    if |s| >= 2 {
      hide SameStep;
      var rest := LastPer(s[1..], a);
      LastPerTwice(s[1..], a, k);
      CoarserStep(rest[0], s[1], a, k);
      if SameStep(s[1], s[0], a) {
        CoarserStep(s[1], s[0], a, k);
      } else {
        SameStepChain(rest[0], s[1], s[0], b);
        assert ([s[0]] + rest)[1..] == rest;
      }
    }
  }

  lemma SameStepChain(x: Sample, y: Sample, z: Sample, step: nat)
    requires step > 0 && SameStep(x, y, step)
    ensures SameStep(x, z, step) <==> SameStep(y, z, step)
  {
  }

  // Thinning at a step and then at a multiple of it is thinning at the
  // multiple.
  lemma ThinTwice(s: seq<Sample>, a: nat, k: nat)
    requires k > 0
    ensures Thin(Thin(s, a), a * k) == Thin(s, a * k)
  {
    if a == 0 {
      ThinShape(s, 0);
      assert a * k == 0;
    } else {
      DivTwice(0, a, k);
      ThinShape(s, a);
      ThinShape(s, a * k);
      ThinShape(Thin(s, a), a * k);
      if s != [] {
        LastPerTwice(s[1..], a, k);
        assert Thin(s, a)[1..] == LastPer(s[1..], a);
      }
    }
  }

  lemma {:induction false} KeptShrinks(cs: seq<Cycle>, a: nat, k: nat)
    requires k > 0
    ensures KeptCount(cs, a * k) <= KeptCount(cs, a)
  {
    if cs != [] {
      var s := Last(cs).samples;
      KeptShrinks(Front(cs), a, k);
      ThinTwice(s, a, k);
      KeptIsThinned(s, 0, a);
      KeptIsThinned(s, 0, a * k);
    }
  }

  // ----- what thinning keeps of the chart

  // The level just before m: that of the last sample taken before it.
  function LevelBefore(s: seq<Sample>, m: int): Option<int> {
    if s == [] then None
    else
      var later := LevelBefore(s[1..], m);
      if later.Some? then later else if s[0].at < m then Some(s[0].util) else None
  }

  lemma BoundaryParts(x: int, y: int, m: int, step: nat)
    requires step > 0 && m % step == 0 && x / step == y / step
    ensures x < m <==> y < m
  {
    var q := m / step;
    assert m == q * step;
    BoundaryDiv(x, q, step);
    BoundaryDiv(y, q, step);
  }

  lemma BoundaryDiv(x: int, q: int, step: nat)
    requires step > 0
    ensures x < q * step <==> x / step < q
  {
    var p, r := x / step, x % step;
    assert x == p * step + r;
    if p < q {
      assert (p + 1) * step <= q * step;
    } else {
      assert q * step <= p * step;
    }
  }

  lemma {:induction false} LastPerLevel(s: seq<Sample>, step: nat, m: int)
    requires step > 0 && m % step == 0
    ensures LevelBefore(LastPer(s, step), m) == LevelBefore(s, m)
  {
    if |s| >= 2 {
      LastPerLevel(s[1..], step, m);
      if SameStep(s[1], s[0], step) {
        BoundaryParts(s[1].at, s[0].at, m, step);
      } else {
        assert ([s[0]] + LastPer(s[1..], step))[1..] == LastPer(s[1..], step);
      }
    }
  }

  lemma LevelCons(a: Sample, s: seq<Sample>, m: int)
    ensures LevelBefore([a] + s, m) ==
            if LevelBefore(s, m).Some? then LevelBefore(s, m) else if a.at < m then Some(a.util) else None
  {
    assert ([a] + s)[1..] == s;
  }

  lemma {:induction false} LastPerEnds(s: seq<Sample>, step: nat)
    requires step > 0
    ensures if s == [] then LastPer(s, step) == [] else LastPer(s, step) != [] && Last(LastPer(s, step)) == Last(s)
  {
    hide SameStep;
    if |s| > 1 {
      LastPerEnds(s[1..], step);
    }
  }

  // At every boundary of the step the thinned cycle stands at the level the
  // whole one does, and both start and end at the same samples.
  lemma ThinKeepsLevels(s: seq<Sample>, step: nat, m: int)
    requires step > 0 && m % step == 0
    ensures LevelBefore(Thin(s, step), m) == LevelBefore(s, m)
    ensures s != [] ==> Thin(s, step) != [] && Thin(s, step)[0] == s[0] && Last(Thin(s, step)) == Last(s)
  {
    hide Thin, LevelBefore, LastPer;
    ThinShape(s, step);
    if s != [] {
      var rest := LastPer(s[1..], step);
      LastPerLevel(s[1..], step, m);
      LevelCons(s[0], s[1..], m);
      LevelCons(s[0], rest, m);
      LastPerEnds(s[1..], step);
      assert s == [s[0]] + s[1..];
    }
  }

  lemma {:induction false} LevelRises(s: seq<Sample>, m: int, n: int)
    requires Ordered(s) && m <= n
    ensures LevelBefore(s, m).Some? ==> LevelBefore(s, n).Some? && LevelBefore(s, m).value <= LevelBefore(s, n).value
    ensures LevelBefore(s, n).Some? ==> s != [] && s[0].util <= LevelBefore(s, n).value
  {
    if s != [] {
      LevelRises(s[1..], m, n);
    }
  }

  // A rise is drawn at most a step late: by the next boundary, the thinned
  // cycle has reached the level the whole one stood at.
  lemma RisesLandWithinAStep(s: seq<Sample>, step: nat, t: int, boundary: int)
    requires Ordered(s) && step > 0 && boundary % step == 0 && t <= boundary < t + step
    ensures var whole, thinned := LevelBefore(s, t), LevelBefore(Thin(s, step), boundary);
            whole.Some? ==> thinned.Some? && whole.value <= thinned.value
  {
    ThinKeepsLevels(s, step, boundary);
    LevelRises(s, t, boundary);
  }

  // ----- choosing the steps

  function FinestFrom(cs: seq<Cycle>, budget: int, i: nat): (step: nat)
    requires i <= |PUBLISH_STEPS|
    decreases |PUBLISH_STEPS| - i
  {
    if i == |PUBLISH_STEPS| then COARSEST
    else if KeptCount(cs, PUBLISH_STEPS[i]) <= budget then PUBLISH_STEPS[i]
    else FinestFrom(cs, budget, i + 1)
  }

  function FinestStep(cs: seq<Cycle>, budget: int): nat { FinestFrom(cs, budget, 0) }

  // The steps of the newest cycle and of the older ones.
  function StepsFor(cs: seq<Cycle>, max: int): (nat, nat) {
    if max <= 0 || cs == [] then (0, 0)
    else
      var cur, past := [Last(cs)], Front(cs);
      var room := max - KeptCount(past, COARSEST);
      var floor := KeptCount(cur, QUARTER);
      var newest := FinestStep(cur, if room < floor <= max then floor else room);
      (newest, FinestStep(past, max - KeptCount(cur, newest)))
  }

  function ThinCycle(c: Cycle, step: nat): Cycle { c.(samples := Thin(c.samples, step)) }

  function ThinAll(cs: seq<Cycle>, step: nat): (out: seq<Cycle>)
    ensures |out| == |cs| && forall i :: 0 <= i < |cs| ==> out[i] == ThinCycle(cs[i], step)
  {
    if cs == [] then [] else ThinAll(Front(cs), step) + [ThinCycle(Last(cs), step)]
  }

  function ExportCycles(cs: seq<Cycle>, max: int): seq<Cycle> {
    if cs == [] then []
    else
      var (newest, older) := StepsFor(cs, max);
      ThinAll(Front(cs), older) + [ThinCycle(Last(cs), newest)]
  }

  function ExportLock(l: Lock, now: int): StoredLock {
    StoredLock(l.from / SECOND, l.to / SECOND,
               if l.end.Ongoing? && l.to <= now then Reset else l.end,
               if l.expected.Some? then l.expected.value / SECOND else 0)
  }

  function ExportLocks(locks: seq<Lock>, now: int): (out: seq<StoredLock>)
    ensures |out| == |locks| && forall i :: 0 <= i < |locks| ==> out[i] == ExportLock(locks[i], now)
  {
    seq(|locks|, i requires 0 <= i < |locks| => ExportLock(locks[i], now))
  }

  function Export(r: Ring, max: int, now: int): WindowHistory {
    WindowHistory(ExportCycles(r.track.cycles, max), ExportLocks(r.spans.locks, now))
  }

  // ----- the bound

  lemma CoarsestFewest(cs: seq<Cycle>, i: nat)
    requires i < |PUBLISH_STEPS|
    ensures KeptCount(cs, COARSEST) <= KeptCount(cs, PUBLISH_STEPS[i])
    ensures KeptCount(cs, QUARTER) <= KeptCount(cs, 0)
  {
    KeptWhole(cs, QUARTER);
    KeptWhole(cs, COARSEST);
    var factors := [1, 96, 48, 24, 12, 4, 2, 1];
    assert i > 0 ==> PUBLISH_STEPS[i] * factors[i] == COARSEST;
    if i > 0 {
      KeptShrinks(cs, PUBLISH_STEPS[i], factors[i]);
    }
  }

  lemma {:induction false} KeptWhole(cs: seq<Cycle>, step: nat)
    ensures KeptCount(cs, step) <= KeptCount(cs, 0)
  {
    if cs != [] {
      KeptWhole(Front(cs), step);
      KeptIsThinned(Last(cs).samples, 0, step);
      KeptIsThinned(Last(cs).samples, 0, 0);
      ThinShape(Last(cs).samples, 0);
    }
  }

  lemma {:induction false} FinestFits(cs: seq<Cycle>, budget: int, i: nat)
    requires i <= |PUBLISH_STEPS|
    ensures KeptCount(cs, COARSEST) > budget ==> FinestFrom(cs, budget, i) == COARSEST
    ensures i < |PUBLISH_STEPS| && KeptCount(cs, COARSEST) <= budget ==> KeptCount(cs, FinestFrom(cs, budget, i)) <= budget
    decreases |PUBLISH_STEPS| - i
  {
    if i < |PUBLISH_STEPS| {
      CoarsestFewest(cs, i);
      FinestFits(cs, budget, i + 1);
    }
  }

  // A budget 15 minutes fits is met at 15 minutes or finer, and only then.
  lemma FinestQuarter(cs: seq<Cycle>, budget: int)
    ensures FinestStep(cs, budget) <= QUARTER <==> KeptCount(cs, QUARTER) <= budget
    ensures KeptCount(cs, QUARTER) == budget ==> KeptCount(cs, FinestStep(cs, budget)) == budget
  {
    CoarsestFewest(cs, 1);
    assert FinestFrom(cs, budget, 2) > QUARTER by { CoarserThanQuarter(cs, budget, 2); }
    assert FinestFrom(cs, budget, 1) == if KeptCount(cs, QUARTER) <= budget then QUARTER else FinestFrom(cs, budget, 2);
  }

  lemma {:induction false} CoarserThanQuarter(cs: seq<Cycle>, budget: int, i: nat)
    requires 2 <= i <= |PUBLISH_STEPS|
    ensures FinestFrom(cs, budget, i) > QUARTER
    decreases |PUBLISH_STEPS| - i
  {
    if i < |PUBLISH_STEPS| {
      CoarserThanQuarter(cs, budget, i + 1);
    }
  }

  // The newest cycle keeps 15 minutes or finer exactly when 15 minutes alone
  // fits the bound.
  lemma NewestFloor(cs: seq<Cycle>, max: int)
    requires max > 0 && cs != []
    ensures StepsFor(cs, max).0 <= QUARTER <==> KeptCount([Last(cs)], QUARTER) <= max
  {
    var cur, past := [Last(cs)], Front(cs);
    var room, floor := max - KeptCount(past, COARSEST), KeptCount(cur, QUARTER);
    FinestQuarter(cur, if room < floor <= max then floor else room);
  }

  lemma {:induction false} TotalThinned(cs: seq<Cycle>, step: nat)
    ensures Total(ThinAll(cs, step)) == KeptCount(cs, step)
  {
    if cs != [] {
      TotalThinned(Front(cs), step);
      KeptIsThinned(Last(cs).samples, 0, step);
      TotalSnoc(ThinAll(Front(cs), step), ThinCycle(Last(cs), step));
    }
  }

  // The step chosen is one of the steps; every finer one exceeds the budget,
  // and so does the chosen one only when all do.
  lemma {:induction false} FinestIsFinest(cs: seq<Cycle>, budget: int, i: nat)
    requires i <= |PUBLISH_STEPS|
    ensures FinestFrom(cs, budget, i) in PUBLISH_STEPS
    ensures forall k :: i <= k < |PUBLISH_STEPS| && PUBLISH_STEPS[k] < FinestFrom(cs, budget, i) ==> KeptCount(cs, PUBLISH_STEPS[k]) > budget
    ensures KeptCount(cs, FinestFrom(cs, budget, i)) > budget ==> forall k :: i <= k < |PUBLISH_STEPS| ==> KeptCount(cs, PUBLISH_STEPS[k]) > budget
    decreases |PUBLISH_STEPS| - i
  {
    hide KeptCount;
    if i < |PUBLISH_STEPS| && KeptCount(cs, PUBLISH_STEPS[i]) > budget {
      FinestIsFinest(cs, budget, i + 1);
    }
  }

  // No finer step would do: of the newest cycle one would not fit beside the
  // older ones at the coarsest step, nor of the older ones beside the newest.
  lemma ExportFinest(cs: seq<Cycle>, max: int, k: nat)
    requires max > 0 && cs != [] && k < |PUBLISH_STEPS|
    ensures var (newest, older) := StepsFor(cs, max);
            && newest in PUBLISH_STEPS && older in PUBLISH_STEPS
            && (PUBLISH_STEPS[k] < newest ==> KeptCount(Front(cs), COARSEST) + KeptCount([Last(cs)], PUBLISH_STEPS[k]) > max)
            && (PUBLISH_STEPS[k] < older ==> KeptCount(Front(cs), PUBLISH_STEPS[k]) + KeptCount([Last(cs)], newest) > max)
  {
    hide KeptCount, FinestFrom;
    var cur, past := [Last(cs)], Front(cs);
    var room, floor := max - KeptCount(past, COARSEST), KeptCount(cur, QUARTER);
    FinestIsFinest(cur, if room < floor <= max then floor else room, 0);
    FinestIsFinest(past, max - KeptCount(cur, StepsFor(cs, max).0), 0);
  }

  // The copy exceeds max exactly when the older cycles at the coarsest step
  // cannot stand beside the newest cycle's 15-minute floor, or beside its
  // coarsest step where 15 minutes alone exceeds max.
  lemma ExportBound(cs: seq<Cycle>, max: int)
    requires max > 0 && cs != []
    ensures Total(ExportCycles(cs, max)) > max <==>
            var past, quarter := KeptCount(Front(cs), COARSEST), KeptCount([Last(cs)], QUARTER);
            past + (if quarter <= max then quarter else KeptCount([Last(cs)], COARSEST)) > max
  {
    hide FinestFrom, KeptCount, ExportCycles;
    var cur, past := [Last(cs)], Front(cs);
    var room, floor := max - KeptCount(past, COARSEST), KeptCount(cur, QUARTER);
    var budget := if room < floor <= max then floor else room;
    var newest := FinestStep(cur, budget);
    var left := max - KeptCount(cur, newest);
    FinestFits(cur, budget, 0);
    FinestQuarter(cur, budget);
    FinestFits(past, left, 0);
    CoarsestFewest(cur, 1);
    CoarsestFewest(past, 1);
    ExportTotal(cs, max);
  }

  lemma ExportTotal(cs: seq<Cycle>, max: int)
    requires cs != []
    ensures var (newest, older) := StepsFor(cs, max);
            Total(ExportCycles(cs, max)) == KeptCount(Front(cs), older) + KeptCount([Last(cs)], newest)
  {
    hide StepsFor, Thin;
    var (newest, older) := StepsFor(cs, max);
    var last := ThinCycle(Last(cs), newest);
    TotalThinned(Front(cs), older);
    TotalThinned([Last(cs)], newest);
    TotalSnoc(ThinAll(Front(cs), older), last);
    assert ThinAll([Last(cs)], newest) == [last];
  }

  // No bound copies every sample.
  lemma {:induction false} ThinAllWhole(cs: seq<Cycle>)
    ensures ThinAll(cs, 0) == cs
  {
    if cs != [] {
      ThinAllWhole(Front(cs));
      ThinShape(Last(cs).samples, 0);
    }
  }

  lemma ExportWhole(cs: seq<Cycle>, max: int)
    requires max <= 0
    ensures ExportCycles(cs, max) == cs
  {
    if cs != [] {
      ThinAllWhole(Front(cs));
      ThinShape(Last(cs).samples, 0);
    }
  }
}
