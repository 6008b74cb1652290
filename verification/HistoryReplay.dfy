/** Reading a saved history back into an empty ring, and exactly when that
    rebuilds the ring it was saved from. */
module HistoryReplay {
  import opened Basics
  import opened History
  import opened HistoryInvariants
  import opened HistoryPublish

  // ----- replay

  function ReplaySample(t: Track, c: Cycle, s: Sample): (r: Track)
    requires Filled(t.cycles)
    ensures Filled(r.cycles)
  {
    AddSample(t, Sample(Truncate(s.at), s.util), c.resetsAt, SampleEstimated(c, s), true).track
  }

  // The samples of c from j on, each passed through add.
  function ReplayFrom(t: Track, c: Cycle, j: nat): (r: Track)
    requires Filled(t.cycles) && j <= |c.samples|
    ensures Filled(r.cycles)
    decreases |c.samples| - j
  {
    if j == |c.samples| then t else ReplayFrom(ReplaySample(t, c, c.samples[j]), c, j + 1)
  }

  // A later cycle is dropped whole when it starts behind the newest sample or
  // describes a window that ended before the newest cycle's.
  predicate OutOfOrder(cs: seq<Cycle>, c: Cycle)
    requires Filled(cs) && c.samples != []
  {
    cs != [] && (c.samples[0].at <= Last(Last(cs).samples).at || EndedBefore(Last(cs).resetsAt, c.resetsAt, c.samples[0].at))
  }

  // A one-reading cycle by a roll, under the newest cycle's reset, is folded
  // into that cycle.
  predicate FoldsIn(cs: seq<Cycle>, c: Cycle)
    requires Filled(cs) && c.samples != []
  {
    cs != [] && !SampleEstimated(c, c.samples[0]) && |c.samples| == 1 && NearRoll(cs, c.samples[0].at) &&
    !Rolled(Last(cs).resetsAt, c.resetsAt) && !Closed(Last(cs), c.samples[0].at) &&
    !FallsUnder(Last(cs), c.samples[0], false)
  }

  function ReplayCycle(t: Track, c: Cycle, first: bool): (r: Track)
    requires Filled(t.cycles)
    ensures Filled(r.cycles)
  {
    if c.samples == [] then t
    else if first then ReplayFrom(t, c, 0)
    else if OutOfOrder(t.cycles, c) then t
    else
      var s := c.samples[0];
      if FoldsIn(t.cycles, c) then
        if CarriedOver(t.cycles, Sample(Truncate(s.at), s.util)) then t else ReplaySample(t, c, s)
      else ReplayFrom(Track(t.cycles + [Cycle(c.resetsAt, [s], SampleEstimated(c, s), None)], None), c, 1)
  }

  // The ring's cycles after the first n saved ones.
  function ReplayCycles(cs: seq<Cycle>, n: nat): (r: Track)
    requires n <= |cs|
    ensures Filled(r.cycles)
  {
    if n == 0 then EMPTY_TRACK else ReplayCycle(ReplayCycles(cs, n - 1), cs[n - 1], n == 1)
  }

  function RestoreLock(l: StoredLock): Lock {
    Lock(l.from * SECOND, l.to * SECOND, l.end, if l.expected != 0 then Some(l.expected * SECOND) else None)
  }

  function RestoreLocks(ls: seq<StoredLock>): seq<Lock> {
    if ls == [] then [] else MergeLock(RestoreLocks(Front(ls)), RestoreLock(Last(ls)))
  }

  function Replay(h: WindowHistory, loaded: int): Ring {
    var t, locks := ReplayCycles(h.cycles, |h.cycles|), RestoreLocks(h.locks);
    var cycles := Compact(t.cycles);
    Ring(Track(cycles, t.fall),
         Spans(TrimLocks(locks, Oldest(cycles)), if locks != [] then Some(loaded) else None, None))
  }

  // ----- the cycles come back

  ghost predicate Observed(cs: seq<Cycle>) {
    forall i :: 0 <= i < |cs| ==> !cs[i].estimated && cs[i].until.None?
  }

  // No cycle has samples on both sides of its own reset's edge.
  ghost predicate OneSided(c: Cycle)
    requires c.samples != []
  {
    c.resetsAt.Some? ==> var edge := c.resetsAt.value + RESET_TOLERANCE;
                         edge < c.samples[0].at || Last(c.samples).at <= edge
  }

  // The i-th cycle opens a cycle of its own behind the ones before it.
  ghost predicate Opens(cs: seq<Cycle>, i: nat)
    requires Filled(cs) && i < |cs|
  {
    i > 0 ==> !OutOfOrder(cs[..i], cs[i]) && !FoldsIn(cs[..i], cs[i])
  }

  ghost predicate Replayable(cs: seq<Cycle>)
    requires Filled(cs)
  {
    forall i :: 0 <= i < |cs| ==> Opens(cs, i) && OneSided(cs[i])
  }

  function Upto(c: Cycle, j: nat): Cycle
    requires j <= |c.samples|
  {
    c.(samples := c.samples[..j])
  }

  // The next sample of a one-sided observed cycle joins the cycle it started.
  lemma ReplayJoins(p: seq<Cycle>, c: Cycle, j: nat)
    requires Filled(p) && CycleOk(c) && !c.estimated && c.until.None? && 0 < j < |c.samples|
    requires !Closed(Upto(c, j), c.samples[j].at)
    ensures ReplaySample(Track(p + [Upto(c, j)], None), c, c.samples[j]) == Track(p + [Upto(c, j + 1)], None)
  {
    var s, cs := c.samples[j], p + [Upto(c, j)];
    var last := c.samples[j - 1];
    assert Last(cs) == Upto(c, j) && Last(Last(cs).samples) == last;
    TruncateFacts(s.at, s.at);
    assert last.at < s.at && last.util <= s.util && s.at - last.at >= FINE_STEP;
    assert j >= 2 && c.samples[j - 2].util == s.util ==> Across(last, s, c.until);
    assert j >= 2 ==> Upto(c, j).samples[j - 2] == c.samples[j - 2];
    assert Upto(c, j).samples + [s] == Upto(c, j + 1).samples;
    assert Front(cs) == p;
  }

  lemma OneSidedStays(c: Cycle, j: nat)
    requires CycleOk(c) && OneSided(c) && 0 < j < |c.samples|
    ensures !Closed(Upto(c, j), c.samples[j].at)
  {
    assert c.samples[0].at <= c.samples[j - 1].at < c.samples[j].at <= Last(c.samples).at;
  }

  lemma {:induction false} ReplayRebuilds(p: seq<Cycle>, c: Cycle, j: nat)
    requires Filled(p) && CycleOk(c) && OneSided(c) && !c.estimated && c.until.None? && 0 < j <= |c.samples|
    ensures ReplayFrom(Track(p + [Upto(c, j)], None), c, j) == Track(p + [c], None)
    decreases |c.samples| - j
  {
    if j < |c.samples| {
      OneSidedStays(c, j);
      ReplayJoins(p, c, j);
      ReplayRebuilds(p, c, j + 1);
    } else {
      assert Upto(c, j) == c;
    }
  }

  lemma ReplayFirst(c: Cycle)
    requires CycleOk(c) && !c.estimated && c.until.None?
    ensures ReplayFrom(EMPTY_TRACK, c, 0) == ReplayFrom(Track([] + [Upto(c, 1)], None), c, 1)
  {
    TruncateFacts(c.samples[0].at, c.samples[0].at);
    assert Upto(c, 1) == Cycle(c.resetsAt, [c.samples[0]], false, None);
    assert ReplaySample(EMPTY_TRACK, c, c.samples[0]) == Track([] + [Upto(c, 1)], None);
  }

  lemma ReplayOpens(cs: seq<Cycle>, i: nat)
    requires CyclesOk(cs) && Filled(cs) && Observed(cs) && i < |cs| && Opens(cs, i) && OneSided(cs[i])
    ensures ReplayCycle(Track(cs[..i], None), cs[i], i == 0) == Track(cs[..i + 1], None)
  {
    hide ReplaySample;
    var c, s := cs[i], cs[i].samples[0];
    TruncateFacts(s.at, s.at);
    assert Upto(c, 1) == Cycle(c.resetsAt, [s], false, None);
    if i == 0 {
      ReplayFirst(c);
      assert cs[..0] == [];
    }
    ReplayRebuilds(cs[..i], c, 1);
    assert cs[..i + 1] == cs[..i] + [c];
  }

  lemma {:induction false} ReplayIdentity(cs: seq<Cycle>, n: nat)
    requires CyclesOk(cs) && Filled(cs) && Observed(cs) && n <= |cs|
    requires forall i :: 0 <= i < n ==> Opens(cs, i) && OneSided(cs[i])
    ensures ReplayCycles(cs, n) == Track(cs[..n], None)
  {
    hide CycleOk, OutOfOrder, FoldsIn, OneSided, ReplayCycle;
    if n > 0 {
      ReplayIdentity(cs, n - 1);
      ReplayOpens(cs, n - 1);
    }
  }

  // ----- and only then

  function Held(t: Track): nat { Total(t.cycles) + if t.fall.Some? then 1 else 0 }

  // u is t after m more readings: older cycles are settled, the newest only
  // gains samples, and each reading leaves at most one more of them.
  ghost predicate Grew(t: Track, u: Track, m: nat) {
    && |t.cycles| <= |u.cycles| && Held(u) <= Held(t) + m
    && (forall k :: 0 <= k < |t.cycles| - 1 ==> u.cycles[k] == t.cycles[k])
    && (t.cycles != [] ==> |Last(t.cycles).samples| <= |u.cycles[|t.cycles| - 1].samples|)
  }

  lemma GrewOn(t: Track, u: Track, v: Track, m: nat, n: nat)
    requires Grew(t, u, m) && Grew(u, v, n)
    ensures Grew(t, v, m + n)
  {
    if t.cycles != [] && |t.cycles| < |u.cycles| {
      assert u.cycles[|t.cycles| - 1] == v.cycles[|t.cycles| - 1];
    }
  }

  lemma ReplayGrows(t: Track, c: Cycle, s: Sample)
    requires Filled(t.cycles)
    ensures Grew(t, ReplaySample(t, c, s), 1)
  {
    hide Extend, FallsUnder, Closed, Rolled, EndedBefore, Total, Grew;
    var x, estimated := Sample(Truncate(s.at), s.util), SampleEstimated(c, s);
    GrewSame(t);
    GrewOpened(t, Cycle(c.resetsAt, [x], estimated, None));
    GrewOpened(t, Cycle(c.resetsAt, [x], false, None));
    if t.cycles != [] {
      GrewExtended(t, x, c.resetsAt, estimated);
      if t.fall.Some? {
        GrewFallen(t, x, c.resetsAt, estimated);
      }
    }
  }

  lemma GrewSame(t: Track)
    ensures Grew(t, t, 1) && forall f :: t.fall.None? ==> Grew(t, t.(fall := f), 1)
  {
  }

  lemma GrewOpened(t: Track, c: Cycle)
    requires |c.samples| == 1
    ensures Grew(t, Track(t.cycles + [c], None), 1)
  {
    TotalSnoc(t.cycles, c);
  }

  lemma GrewExtended(t: Track, s: Sample, resetsAt: Option<int>, estimated: bool)
    requires Filled(t.cycles) && t.cycles != []
    ensures Grew(t, Track(Extend(t.cycles, s, resetsAt, estimated, true).0, None), 1)
  {
    hide Extend;
    ExtendGrows(t.cycles, s, resetsAt, estimated);
  }

  lemma GrewFallen(t: Track, s: Sample, resetsAt: Option<int>, estimated: bool)
    requires Filled(t.cycles) && t.fall.Some?
    ensures var f := t.fall.value;
            Grew(t, Track(Extend(t.cycles + [Cycle(f.resetsAt, [f.sample], false, None)], s, resetsAt, estimated, true).0, None), 1)
  {
    hide Extend, Total, Filled;
    var f := t.fall.value;
    var fallen := Cycle(f.resetsAt, [f.sample], false, None);
    FilledSnoc(t.cycles, fallen);
    var cs := t.cycles + [fallen];
    TotalSnoc(t.cycles, fallen);
    ExtendGrows(cs, s, resetsAt, estimated);
    var cs' := Extend(cs, s, resetsAt, estimated, true).0;
    assert Front(cs) == t.cycles;
    assert forall k :: 0 <= k < |t.cycles| ==> cs'[k] == Front(cs')[k];
  }

  lemma FilledSnoc(cs: seq<Cycle>, c: Cycle)
    requires Filled(cs) && c.samples != []
    ensures Filled(cs + [c])
  {
  }

  lemma ExtendGrows(cs: seq<Cycle>, s: Sample, resetsAt: Option<int>, estimated: bool)
    requires cs != [] && Filled(cs)
    ensures var cs' := Extend(cs, s, resetsAt, estimated, true).0;
            && |cs'| == |cs| && Front(cs') == Front(cs)
            && |Last(cs).samples| <= |Last(cs').samples| <= |Last(cs).samples| + 1
            && Total(cs') == Total(cs) - |Last(cs).samples| + |Last(cs').samples|
  {
    var cs' := Extend(cs, s, resetsAt, estimated, true).0;
    TotalSnoc(Front(cs), Last(cs));
    TotalSnoc(Front(cs), Last(cs'));
    assert Front(cs) + [Last(cs)] == cs && Front(cs) + [Last(cs')] == cs';
  }

  lemma {:induction false} ReplayFromGrows(t: Track, c: Cycle, j: nat)
    requires Filled(t.cycles) && j <= |c.samples|
    ensures Grew(t, ReplayFrom(t, c, j), |c.samples| - j)
    decreases |c.samples| - j
  {
    hide ReplaySample;
    if j < |c.samples| {
      var u := ReplaySample(t, c, c.samples[j]);
      ReplayGrows(t, c, c.samples[j]);
      ReplayFromGrows(u, c, j + 1);
      GrewOn(t, u, ReplayFrom(t, c, j), 1, |c.samples| - j - 1);
    }
  }

  lemma ReplayCycleGrows(t: Track, c: Cycle, first: bool)
    requires Filled(t.cycles)
    ensures Grew(t, ReplayCycle(t, c, first), |c.samples|)
  {
    hide ReplaySample, ReplayFrom, FoldsIn, OutOfOrder, CarriedOver;
    if c.samples != [] {
      var s := c.samples[0];
      ReplayFromGrows(t, c, 0);
      ReplayGrows(t, c, s);
      var started := Track(t.cycles + [Cycle(c.resetsAt, [s], SampleEstimated(c, s), None)], None);
      TotalSnoc(t.cycles, Last(started.cycles));
      assert Grew(t, started, 1);
      ReplayFromGrows(started, c, 1);
      GrewOn(t, started, ReplayFrom(started, c, 1), 1, |c.samples| - 1);
    }
  }

  lemma {:induction false} ReplayCyclesGrow(cs: seq<Cycle>, n: nat, m: nat)
    requires n <= m <= |cs|
    ensures Grew(ReplayCycles(cs, n), ReplayCycles(cs, m), Total(cs[n..m]))
    decreases m
  {
    hide ReplayCycle, Grew, Total, ReplayCycles;
    if n < m {
      ReplayCyclesNext(cs, m - 1);
      ReplayCyclesGrow(cs, n, m - 1);
      ReplayCycleGrows(ReplayCycles(cs, m - 1), cs[m - 1], m == 1);
      TotalSnoc(cs[n..m - 1], cs[m - 1]);
      assert cs[n..m] == cs[n..m - 1] + [cs[m - 1]];
      GrewOn(ReplayCycles(cs, n), ReplayCycles(cs, m - 1), ReplayCycles(cs, m), Total(cs[n..m - 1]), |cs[m - 1].samples|);
    } else {
      assert cs[n..m] == [];
      GrewNone(ReplayCycles(cs, n));
    }
  }

  lemma ReplayCyclesNext(cs: seq<Cycle>, n: nat)
    requires n < |cs|
    ensures ReplayCycles(cs, n + 1) == ReplayCycle(ReplayCycles(cs, n), cs[n], n == 0)
  {
    hide ReplayCycle;
  }

  lemma GrewNone(t: Track)
    ensures Grew(t, t, Total([]))
  {
  }

  lemma {:induction false} TotalSplit(cs: seq<Cycle>, n: nat)
    requires n <= |cs|
    ensures Total(cs) == Total(cs[..n]) + Total(cs[n..])
  {
    if n > 0 {
      TotalSplit(cs[1..], n - 1);
      assert cs[..n][1..] == cs[1..][..n - 1] && cs[1..][n - 1..] == cs[n..];
    } else {
      assert cs[..0] == [] && cs[0..] == cs;
    }
  }

  // A cycle that does not open one of its own is missing for good.
  lemma DroppedStaysLost(cs: seq<Cycle>, i: nat)
    requires CyclesOk(cs) && Filled(cs) && Observed(cs) && 0 < i < |cs| && !Opens(cs, i)
    requires ReplayCycles(cs, i) == Track(cs[..i], None)
    ensures ReplayCycles(cs, |cs|).cycles != cs
  {
    hide Absorb, Settle, CarriedOver, FallsUnder, Closed, Rolled, EndedBefore, ReplayCycle, NearRoll;
    var t, u, v := Track(cs[..i], None), ReplayCycles(cs, i + 1), ReplayCycles(cs, |cs|);
    FoldedCycle(t, cs[i]);
    ReplayCyclesGrow(cs, i + 1, |cs|);
    TotalSplit(cs, i);
    assert cs[i..][0] == cs[i] && cs[i..][1..] == cs[i + 1..|cs|];
    assert Held(u) >= Held(t) + |cs[i].samples| ==> |u.cycles[i - 1].samples| > |cs[i - 1].samples|;
  }

  // What a cycle out of order or folded in leaves: nothing, or one more sample
  // in the newest cycle.
  lemma FoldedCycle(t: Track, c: Cycle)
    requires Filled(t.cycles) && t.cycles != [] && t.fall.None? && c.samples != []
    requires !c.estimated && c.until.None? && CycleOk(c)
    requires OutOfOrder(t.cycles, c) || FoldsIn(t.cycles, c)
    ensures var u := ReplayCycle(t, c, false);
            && |u.cycles| == |t.cycles| && u.fall.None?
            && (Held(u) == Held(t) || (|Last(u.cycles).samples| > |Last(t.cycles).samples| && Held(u) == Held(t) + 1))
  {
    hide Absorb, Settle, CarriedOver, NearRoll;
    var s := c.samples[0];
    TruncateFacts(s.at, s.at);
    ExtendGrows(t.cycles, s, c.resetsAt, false);
  }

  // A cycle that opens one of its own starts it with its first sample.
  lemma OpensWithFirst(cs: seq<Cycle>, i: nat)
    requires CyclesOk(cs) && Filled(cs) && Observed(cs) && i < |cs| && Opens(cs, i)
    requires ReplayCycles(cs, i) == Track(cs[..i], None)
    ensures ReplayCycles(cs, i + 1) == ReplayFrom(Track(cs[..i] + [Upto(cs[i], 1)], None), cs[i], 1)
  {
    hide ReplaySample, ReplayFrom, OutOfOrder, FoldsIn, CarriedOver, Rising;
    var c := cs[i];
    assert CycleOk(c) && !c.estimated && c.until.None?;
    assert Upto(c, 1) == Cycle(c.resetsAt, [c.samples[0]], false, None);
    if i == 0 {
      ReplayFirst(c);
      assert cs[..0] == [];
    }
  }

  // A cycle on both sides of its reset's edge is split there for good.
  lemma {:induction false} StraddleSplits(cs: seq<Cycle>, i: nat)
    requires CyclesOk(cs) && Filled(cs) && Observed(cs) && i < |cs| && Opens(cs, i) && !OneSided(cs[i])
    requires ReplayCycles(cs, i) == Track(cs[..i], None)
    ensures ReplayCycles(cs, |cs|).cycles != cs
  {
    hide ReplayFrom, ReplayCycles, Opens, OneSided, Closed, Rising;
    var c := cs[i];
    assert CycleOk(c) && !c.estimated && c.until.None?;
    OpensWithFirst(cs, i);
    var j := SplitAt(c);
    ReplaySplits(cs[..i], c, 1, j);
    ReplayCyclesGrow(cs, i + 1, |cs|);
    assert ReplayCycles(cs, |cs|).cycles[i] == Upto(c, j);
  }

  // The first sample past the edge.
  lemma SplitAt(c: Cycle) returns (j: nat)
    requires CycleOk(c) && !OneSided(c)
    ensures 0 < j < |c.samples| && Closed(Upto(c, j), c.samples[j].at)
    ensures forall k :: 0 < k < j ==> !Closed(Upto(c, k), c.samples[k].at)
  {
    var edge := c.resetsAt.value + RESET_TOLERANCE;
    j := 1;
    while c.samples[j].at <= edge
      invariant 0 < j < |c.samples|
      invariant forall k :: 0 <= k < j ==> c.samples[k].at <= edge
    {
      j := j + 1;
    }
  }

  lemma {:induction false} ReplaySplits(p: seq<Cycle>, c: Cycle, k: nat, j: nat)
    requires Filled(p) && CycleOk(c) && !c.estimated && c.until.None? && 0 < k <= j < |c.samples|
    requires Closed(Upto(c, j), c.samples[j].at)
    requires forall i :: k <= i < j ==> !Closed(Upto(c, i), c.samples[i].at)
    ensures var u := ReplayFrom(Track(p + [Upto(c, k)], None), c, k);
            |u.cycles| > |p| + 1 && u.cycles[|p|] == Upto(c, j)
    decreases j - k
  {
    var t := Track(p + [Upto(c, k)], None);
    if k < j {
      ReplayJoins(p, c, k);
      ReplaySplits(p, c, k + 1, j);
    } else {
      var s := c.samples[j];
      TruncateFacts(s.at, s.at);
      var u := ReplaySample(t, c, s);
      assert u.cycles == t.cycles + [Cycle(c.resetsAt, [s], false, None)];
      ReplayFromGrows(u, c, j + 1);
      assert u.cycles[|p|] == Upto(c, j);
    }
  }

  // Replaying the cycles alone rebuilds them exactly when each opens a cycle
  // of its own and none straddles its reset.
  lemma {:induction false} ReplayExact(cs: seq<Cycle>)
    requires CyclesOk(cs) && Filled(cs) && Observed(cs)
    ensures ReplayCycles(cs, |cs|).cycles == cs <==> Replayable(cs)
  {
    hide OneSided, ReplayCycles, OutOfOrder, FoldsIn;
    if Replayable(cs) {
      ReplayIdentity(cs, |cs|);
      assert cs[..|cs|] == cs;
    } else {
      var i := FirstLost(cs, 0);
      ReplayIdentity(cs, i);
      if Opens(cs, i) {
        StraddleSplits(cs, i);
      } else {
        DroppedStaysLost(cs, i);
      }
    }
  }

  // The first cycle that is not replayed as it stands.
  ghost function FirstLost(cs: seq<Cycle>, n: nat): (i: nat)
    requires Filled(cs) && n <= |cs| && !Replayable(cs)
    requires forall k :: 0 <= k < n ==> Opens(cs, k) && OneSided(cs[k])
    ensures i < |cs| && !(Opens(cs, i) && OneSided(cs[i]))
    ensures forall k :: 0 <= k < i ==> Opens(cs, k) && OneSided(cs[k])
    decreases |cs| - n
  {
    if n < |cs| && Opens(cs, n) && OneSided(cs[n]) then FirstLost(cs, n + 1) else n
  }

  // ----- compaction adds nothing to a compacted ring

  lemma {:induction false} CoarsenWhole(s: seq<Sample>, edge: int)
    requires |Coarsen(s, edge)| == |s|
    ensures Coarsen(s, edge) == s
  {
    if |s| >= 2 {
      assert !Superseded(s[0], s[1], edge);
      CoarsenWhole(s[1..], edge);
    }
  }

  lemma {:induction false} CoarsenAllWhole(cs: seq<Cycle>, edge: int)
    ensures Total(CoarsenAll(cs, edge)) <= Total(cs)
    ensures Total(CoarsenAll(cs, edge)) == Total(cs) ==> CoarsenAll(cs, edge) == cs
  {
    hide Coarsen, Total;
    if cs != [] {
      var p, c := Front(cs), Last(cs);
      CoarsenAllWhole(p, edge);
      TotalSnoc(p, c);
      TotalSnoc(CoarsenAll(p, edge), CoarsenCycle(c, edge));
      assert p + [c] == cs;
      if |Coarsen(c.samples, edge)| == |c.samples| {
        CoarsenWhole(c.samples, edge);
      }
    }
  }

  lemma {:induction false} EvictTotal(cs: seq<Cycle>, drop: nat)
    requires drop <= Total(cs)
    ensures Total(Evict(cs, drop)) == Total(cs) - drop
  {
    if drop > 0 && |cs[0].samples| <= drop {
      EvictTotal(cs[1..], drop - |cs[0].samples|);
    }
  }

  // Compaction that drops no sample changes nothing.
  lemma CompactWhole(cs: seq<Cycle>)
    requires Filled(cs)
    ensures Total(Compact(cs)) <= Total(cs)
    ensures Total(Compact(cs)) == Total(cs) ==> Compact(cs) == cs
  {
    if cs != [] {
      CoarsenAllWhole(cs, Edge(cs));
    }
    EvictTotal(Tiered(cs), Max(0, Total(Tiered(cs)) - MAX_SAMPLES));
  }

  // A saved ring of observed cycles comes back cycle for cycle exactly when
  // each cycle opens one of its own on the ones before it and none straddles
  // its own reset.
  lemma ExportReplayCycles(r: Ring, now: int, loaded: int)
    requires RingOk(r) && Filled(r.track.cycles) && Observed(r.track.cycles) && Compact(r.track.cycles) == r.track.cycles
    ensures var back := Replay(Export(r, 0, now), loaded);
            && (back.track.cycles == r.track.cycles <==> Replayable(r.track.cycles))
            && (Replayable(r.track.cycles) ==> back.track.fall.None?)
  {
    hide Replayable, Compact, CyclesOk, Observed;
    var cs := r.track.cycles;
    ExportWhole(cs, 0);
    var back := ReplayCycles(cs, |cs|);
    ReplayExact(cs);
    CompactWhole(back.cycles);
    ReplayCyclesGrow(cs, 0, |cs|);
    assert cs[0..|cs|] == cs;
    assert Held(ReplayCycles(cs, 0)) == 0;
  }

  // ----- the spans come back

  // An ongoing span whose expected reset has passed, as ended by it.
  function Settled(l: Lock, now: int): Lock {
    if l.end.Ongoing? && l.to <= now then l.(end := Reset) else l
  }

  function SettledAll(locks: seq<Lock>, now: int): (out: seq<Lock>)
    ensures |out| == |locks| && forall i :: 0 <= i < |locks| ==> out[i] == Settled(locks[i], now)
  {
    seq(|locks|, i requires 0 <= i < |locks| => Settled(locks[i], now))
  }

  // A saved expected reset of zero stands for none.
  lemma LockRoundTrip(l: Lock, now: int)
    requires SpanOk(l)
    ensures RestoreLock(ExportLock(l, now)) == Settled(l, now) <==> l.expected != Some(0)
  {
  }

  // A saved span merges behind the ones before it.
  lemma MergeAfter(locks: seq<Lock>, now: int)
    requires LocksOk(locks) && locks != []
    ensures MergeLock(SettledAll(Front(locks), now), Settled(Last(locks), now)) == SettledAll(locks, now)
  {
    var p, l, n := Front(locks), Last(locks), |locks|;
    assert SpanOk(locks[n - 1]);
    if p != [] {
      assert Last(SettledAll(p, now)) == Settled(locks[n - 2], now);
      assert locks[n - 2].to <= l.from && !locks[n - 2].end.Ongoing?;
    }
  }

  lemma {:induction false} LocksRoundTrip(locks: seq<Lock>, now: int)
    requires LocksOk(locks) && forall i :: 0 <= i < |locks| ==> locks[i].expected != Some(0)
    ensures RestoreLocks(ExportLocks(locks, now)) == SettledAll(locks, now)
  {
    hide RestoreLock, ExportLock, MergeLock;
    if locks != [] {
      var p, l := Front(locks), Last(locks);
      LocksRoundTrip(p, now);
      assert Front(ExportLocks(locks, now)) == ExportLocks(p, now) && Last(ExportLocks(locks, now)) == ExportLock(l, now);
      assert l == locks[|locks| - 1];
      LockRoundTrip(l, now);
      MergeAfter(locks, now);
    }
  }

  // Every span comes back with its ends and expected reset, short of those
  // that ended before the oldest sample that did; an ongoing one whose reset
  // has passed comes back as ended by it. What becomes of the cycles does not
  // matter, nor does the bound of the copy.
  lemma SpansComeBack(r: Ring, max: int, now: int, loaded: int)
    requires SpansOk(r.spans) && forall i :: 0 <= i < |r.spans.locks| ==> r.spans.locks[i].expected != Some(0)
    ensures var locks, back := r.spans.locks, Replay(Export(r, max, now), loaded);
            var oldest := Oldest(back.track.cycles);
            && back.spans.locks == SettledAll(locks, now)[Passed(locks, oldest)..]
            && forall l :: l in locks && (oldest.None? || oldest.value <= l.to) ==> Settled(l, now) in back.spans.locks
  {
    hide Compact, RestoreLocks, ExportLocks, TrimLocks, SettledAll, Settled, ReplayCycles, ExportCycles, LocksOk;
    LocksRoundTrip(r.spans.locks, now);
    TrimSettled(r.spans.locks, now, Oldest(Replay(Export(r, max, now), loaded).track.cycles));
  }

  // Where the cycles come back, that is every span reaching the oldest sample.
  lemma ExportReplayLocks(r: Ring, now: int, loaded: int)
    requires RingOk(r) && Filled(r.track.cycles) && Observed(r.track.cycles) && Compact(r.track.cycles) == r.track.cycles
    requires Replayable(r.track.cycles)
    requires forall i :: 0 <= i < |r.spans.locks| ==> r.spans.locks[i].expected != Some(0)
    ensures var locks, back := r.spans.locks, Replay(Export(r, 0, now), loaded).spans.locks;
            && back == SettledAll(locks, now)[Passed(locks, Oldest(r.track.cycles))..]
            && forall l :: l in locks && (r.track.cycles == [] || r.track.cycles[0].samples[0].at <= l.to) ==> Settled(l, now) in back
  {
    hide Replayable, Compact, TrackOk, SpansOk, Observed, Replay, Export, SettledAll, Settled;
    ExportReplayCycles(r, now, loaded);
    SpansComeBack(r, 0, now, loaded);
  }

  lemma TrimSettled(locks: seq<Lock>, now: int, oldest: Option<int>)
    requires |locks| <= MAX_LOCKS
    ensures TrimLocks(SettledAll(locks, now), oldest) == SettledAll(locks, now)[Passed(locks, oldest)..]
    ensures forall l :: l in locks && (oldest.None? || oldest.value <= l.to) ==>
              Settled(l, now) in SettledAll(locks, now)[Passed(locks, oldest)..]
  {
    hide Passed, Settled;
    var n, settled := Passed(locks, oldest), SettledAll(locks, now);
    PassedSettled(locks, now, oldest);
    forall l | l in locks && (oldest.None? || oldest.value <= l.to)
      ensures Settled(l, now) in settled[n..]
    {
      var i :| 0 <= i < |locks| && locks[i] == l;
      if i < n { PassedEnded(locks, oldest, i); }
      assert settled[n..][i - n] == Settled(l, now);
    }
  }

  lemma {:induction false} PassedSettled(locks: seq<Lock>, now: int, oldest: Option<int>)
    ensures Passed(SettledAll(locks, now), oldest) == Passed(locks, oldest)
  {
    if locks != [] {
      PassedSettled(locks[1..], now, oldest);
      assert SettledAll(locks, now)[1..] == SettledAll(locks[1..], now);
    }
  }

  lemma {:induction false} PassedEnded(locks: seq<Lock>, oldest: Option<int>, i: nat)
    requires i < Passed(locks, oldest)
    ensures oldest.Some? && locks[i].to < oldest.value
  {
    if i > 0 {
      PassedEnded(locks[1..], oldest, i - 1);
    }
  }

  // A loaded ring takes its refusals for made by the load: a span still ongoing
  // ends as served by a request admitted after it, and by no earlier one.
  lemma LoadedAdmission(h: WindowHistory, loaded: int, admitted: int, at: int)
    requires var locks := Replay(h, loaded).spans.locks;
             locks != [] && Last(locks).end.Ongoing? && Last(locks).from < Truncate(at) < Last(locks).to
    ensures var locks, after := Replay(h, loaded).spans.locks, Serve(Replay(h, loaded).spans, admitted, at).0.locks;
            after == if admitted <= loaded then locks
                     else locks[|locks| - 1 := Lock(Last(locks).from, Truncate(at), Served, Some(Last(locks).to))]
  {
    hide ReplayCycles, Compact, RestoreLocks, Truncate;
  }
}
