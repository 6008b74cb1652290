/** The ring as the program holds it: fields the methods change in place, each
    method proved against the functions of History, HistoryPublish and
    HistoryReplay. */
module HistoryRing {
  import opened Basics
  import opened History
  import opened HistoryPublish
  import opened HistoryReplay

  lemma CoarsenHead(s: seq<Sample>, i: nat, edge: int)
    requires i < |s|
    ensures Coarsen(s[i..], edge) ==
            (if i + 1 < |s| && Superseded(s[i], s[i + 1], edge) then [] else [s[i]]) + Coarsen(s[i + 1..], edge)
  {
    hide SameStep;
    assert s[i..][1..] == s[i + 1..];
  }

  // coarsen reuses the backing array of the samples it filters: the kept ones
  // grow over entries already read.
  method CoarsenInPlace(a: array<Sample>, edge: int) returns (n: nat)
    modifies a
    ensures n <= a.Length && a[..n] == Coarsen(old(a[..]), edge)
  {
    hide Coarsen, Superseded, SameStep;
    ghost var was := a[..];
    n := 0;
    for i := 0 to a.Length
      invariant n <= i
      invariant forall k :: i <= k < a.Length ==> a[k] == was[k]
      invariant a[..n] + Coarsen(was[i..], edge) == Coarsen(was, edge)
    {
      ghost var kept := a[..n];
      var s := a[i];
      CoarsenHead(was, i, edge);
      if !(i + 1 < a.Length && Superseded(s, a[i + 1], edge)) {
        a[n] := s;
        n := n + 1;
        assert a[..n] == kept + [s];
        assert kept + ([s] + Coarsen(was[i + 1..], edge)) == a[..n] + Coarsen(was[i + 1..], edge);
      } else {
        assert [] + Coarsen(was[i + 1..], edge) == Coarsen(was[i + 1..], edge);
      }
    }
    CoarsenNothing(edge);
    assert was[a.Length..] == [];
  }

  lemma CoarsenNothing(edge: int)
    ensures Coarsen([], edge) == []
  {
  }

  lemma TotalNothing()
    ensures Total([]) == 0
  {
  }

  lemma CompactNothing()
    ensures History.Compact([]) == []
  {
  }

  // ----- thinning

  method ThinSamples(samples: seq<Sample>, step: nat) returns (kept: seq<Sample>)
    ensures kept == Thin(samples, step)
  {
    kept := [];
    for i := 0 to |samples|
      invariant kept + ThinFrom(samples, i, step) == Thin(samples, step)
    {
      if Keeps(samples, i, step) {
        assert kept + ([samples[i]] + ThinFrom(samples, i + 1, step)) == kept + [samples[i]] + ThinFrom(samples, i + 1, step);
        kept := kept + [samples[i]];
      }
    }
  }

  method CountKept(cs: seq<Cycle>, step: nat) returns (n: nat)
    ensures n == KeptCount(cs, step)
  {
    n := 0;
    for k := 0 to |cs|
      invariant n == KeptCount(cs[..k], step)
    {
      var samples := cs[k].samples;
      ghost var before := n;
      for i := 0 to |samples|
        invariant n + KeptFrom(samples, i, step) == before + KeptFrom(samples, 0, step)
      {
        if Keeps(samples, i, step) {
          n := n + 1;
        }
      }
      assert Front(cs[..k + 1]) == cs[..k];
    }
    assert cs[..|cs|] == cs;
  }

  method PickFinestStep(cs: seq<Cycle>, budget: int) returns (step: nat)
    ensures step == FinestStep(cs, budget)
  {
    for i := 0 to |PUBLISH_STEPS|
      invariant FinestFrom(cs, budget, i) == FinestStep(cs, budget)
    {
      var n := CountKept(cs, PUBLISH_STEPS[i]);
      if n <= budget {
        return PUBLISH_STEPS[i];
      }
    }
    step := COARSEST;
  }

  // ----- the ring

  lemma RestoreNone()
    ensures RestoreLocks([]) == []
  {
  }

  lemma RestoreNext(ls: seq<StoredLock>, i: nat)
    requires i < |ls|
    ensures var l := ls[i];
            RestoreLocks(ls[..i + 1]) == History.MergeLock(RestoreLocks(ls[..i]),
              Lock(l.from * SECOND, l.to * SECOND, l.end, if l.expected != 0 then Some(l.expected * SECOND) else None))
  {
    hide History.MergeLock;
    assert Front(ls[..i + 1]) == ls[..i];
  }

  lemma CoarsenAllNone(edge: int)
    ensures CoarsenAll([], edge) == []
  {
  }

  lemma CoarsenAllNext(cs: seq<Cycle>, i: nat, edge: int)
    requires i < |cs|
    ensures CoarsenAll(cs[..i + 1], edge) == CoarsenAll(cs[..i], edge) + [CoarsenCycle(cs[i], edge)]
  {
    hide CoarsenCycle;
    assert Front(cs[..i + 1]) == cs[..i];
  }

  lemma CoarsenedFilled(c: Cycle, edge: int)
    ensures c.samples != [] ==> CoarsenCycle(c, edge).samples != []
  {
  }

  class HistoryRing {
    var cycles: seq<Cycle>
    var replaying: bool
    var fall: Option<Fall>
    var locks: seq<Lock>
    var refused: Option<int>
    var served: Option<int>

    ghost function State(): Ring
      reads this
    {
      Ring(Track(cycles, fall), Spans(locks, refused, served))
    }

    constructor ()
      ensures State() == EMPTY_RING && !replaying
    {
      cycles, replaying, fall, locks, refused, served := [], false, None, [], None, None;
    }

    method Put(x: Reading, estimated: bool)
      requires Filled(cycles) && !replaying
      modifies this
      ensures State() == History.Put(old(State()), x, estimated) && !replaying
    {
      var changed := Add(x, estimated);
      if changed {
        Compact();
      }
    }

    method Add(x: Reading, estimated: bool) returns (changed: bool)
      requires Filled(cycles)
      modifies this
      ensures var step := AddReading(old(State().track), x, estimated, replaying);
              && State() == Ring(step.track, EndAt(old(State().spans), step.ends))
              && changed == step.changed
      ensures replaying == old(replaying) && Filled(cycles)
    {
      hide Extend, EndSpan, Truncate, Closed, FallsUnder, NearRoll, CarriedOver;
      if x.at.None? || x.util.None? {
        return false;
      }
      var s := Sample(Truncate(x.at.value), x.util.value);
      var n := |cycles|;
      if n > 0 && EndedBefore(cycles[n - 1].resetsAt, x.resetsAt, s.at) {
        return false;
      }
      if n == 0 || Rolled(cycles[n - 1].resetsAt, x.resetsAt) || Closed(cycles[n - 1], s.at) {
        if n > 0 {
          var _ := End(s.at, Reset);
        }
        fall := None;
        cycles := cycles + [Cycle(x.resetsAt, [s], estimated, None)];
        return true;
      }
      if !FallsUnder(cycles[n - 1], s, estimated) {
        fall := None;
      } else if fall.None? {
        fall := Some(Fall(s, x.resetsAt));
        return false;
      } else if s.at <= fall.value.sample.at {
        return false;
      } else if fall.value.sample.util - s.util > CLEAR_DROP {
        var _ := End(fall.value.sample.at, Cleared);
        fall := None;
        cycles := cycles + [Cycle(x.resetsAt, [s], false, None)];
        return true;
      } else {
        var _ := End(fall.value.sample.at, Cleared);
        cycles := cycles + [Cycle(fall.value.resetsAt, [fall.value.sample], false, None)];
        fall := None;
      }
      changed := Grow(s, x.resetsAt, estimated);
    }

    // A reading that stays in a cycle, at the level it is recorded at.
    static method Take(c0: Cycle, s0: Sample, estimated: bool) returns (c: Cycle, taken: bool)
      requires c0.samples != []
      ensures (c, taken) == Absorb(c0, Settle(c0, s0, estimated), estimated)
    {
      hide SampleEstimated;
      c := c0;
      var s, k := s0, |c.samples|;
      var last := c.samples[k - 1];
      if s.util < last.util && !estimated && !SampleEstimated(c, last) {
        s := Sample(s.at, last.util);
      }
      if s.at <= last.at {
        return c, false;
      } else if s.util < last.util {
        return c, false;
      } else if c.estimated && !estimated {
        c := c.(estimated := false, until := Some(last.at), samples := c.samples + [s]);
      } else if s.at - last.at < FINE_STEP {
        c := c.(samples := c.samples[..k - 1] + [s]);
      } else if k >= 2 && last.util == s.util && c.samples[k - 2].util == s.util {
        c := c.(samples := c.samples[..k - 1] + [Sample(s.at, last.util)]);
      } else {
        c := c.(samples := c.samples + [s]);
      }
      return c, true;
    }

    // The rest of add: a reading that stays in the newest cycle.
    method Grow(s: Sample, resetsAt: Option<int>, estimated: bool) returns (changed: bool)
      requires cycles != [] && Filled(cycles)
      modifies this`cycles
      ensures (cycles, changed) == Extend(old(cycles), s, resetsAt, estimated, replaying)
    {
      hide CarriedOver, Absorb, Settle;
      var n := |cycles|;
      var c := cycles[n - 1];
      if c.resetsAt.None? {
        c := c.(resetsAt := resetsAt);
        cycles := cycles[..n - 1] + [c];
      }
      assert cycles == Front(old(cycles)) + [c];
      if !estimated && !replaying && CarriedOver(cycles, s) {
        return false;
      }
      c, changed := Take(c, s, estimated);
      cycles := cycles[..n - 1] + [c];
    }

    method Compact()
      requires Filled(cycles)
      modifies this`cycles, this`locks
      ensures cycles == History.Compact(old(cycles))
      ensures locks == History.TrimLocks(old(locks), Oldest(cycles))
    {
      hide CoarsenAll, Evict, Total, Oldest, History.TrimLocks;
      if |cycles| == 0 {
        CompactNothing();
        TrimLocks();
        return;
      }
      var newest := cycles[|cycles| - 1];
      var edge := newest.samples[|newest.samples| - 1].at - FINE_SPAN;
      var total := Tier(edge);
      EvictOldest(total);
      TrimLocks();
    }

    // Drops the oldest samples past the cap, and a cycle emptied that way.
    method EvictOldest(total0: nat)
      requires total0 == Total(cycles)
      modifies this`cycles
      ensures cycles == Evict(old(cycles), Max(0, total0 - MAX_SAMPLES))
    {
      var total := total0;
      while total > MAX_SAMPLES
        invariant total == Total(cycles)
        invariant Max(0, total - MAX_SAMPLES) <= total
        invariant Evict(cycles, Max(0, total - MAX_SAMPLES)) == Evict(old(cycles), Max(0, total0 - MAX_SAMPLES))
        decreases |cycles|, total
      {
        var c := cycles[0];
        var drop := Min(total - MAX_SAMPLES, |c.samples|);
        c := c.(samples := c.samples[drop..]);
        total := total - drop;
        if c.samples == [] {
          cycles := cycles[1..];
        } else {
          if c.until.Some? && c.samples[0].at > c.until.value {
            c := c.(until := None);
          }
          ghost var rest := cycles[1..];
          cycles := [c] + cycles[1..];
          assert cycles[1..] == rest;
        }
      }
    }

    static method CoarsenOne(c0: Cycle, edge: int) returns (c: Cycle)
      ensures c == CoarsenCycle(c0, edge)
    {
      c := c0;
      if |c.samples| > 0 && c.samples[0].at < edge {
        var buf := new Sample[|c.samples|](k requires 0 <= k < |c.samples| => c.samples[k]);
        assert buf[..] == c.samples;
        var n := CoarsenInPlace(buf, edge);
        c := c.(samples := buf[..n]);
      }
    }

    // The coarse tier over every cycle; reports the samples left.
    method Tier(edge: int) returns (total: nat)
      requires Filled(cycles)
      modifies this`cycles
      ensures cycles == CoarsenAll(old(cycles), edge) && total == Total(cycles) && Filled(cycles)
    {
      hide CoarsenCycle, CoarsenAll, Total;
      ghost var was := cycles;
      total := 0;
      CoarsenAllNone(edge);
      TotalNothing();
      for i := 0 to |cycles|
        invariant |cycles| == |was| && forall j :: i <= j < |was| ==> cycles[j] == was[j]
        invariant cycles[..i] == CoarsenAll(was[..i], edge)
        invariant total == Total(cycles[..i])
      {
        var c := CoarsenOne(cycles[i], edge);
        ghost var done := cycles[..i];
        cycles := cycles[i := c];
        total := total + |c.samples|;
        TotalSnoc(done, c);
        CoarsenAllNext(was, i, edge);
        assert cycles[..i + 1] == done + [c];
      }
      assert was[..|was|] == was && cycles[..|cycles|] == cycles;
      forall k | 0 <= k < |cycles|
        ensures cycles[k].samples != []
      {
        CoarsenedFilled(was[k], edge);
      }
    }

    // ----- refusal spans

    method Refuse(admitted: int, at0: int, until0: int) returns (changed: bool)
      modifies this`locks, this`refused
      ensures (State().spans, changed) == History.Refuse(old(State().spans), admitted, at0, until0, Oldest(cycles))
    {
      var at, until := Truncate(at0), Truncate(until0);
      if until <= at || !After(admitted, served) {
        return false;
      }
      var n := |locks|;
      if n == 0 || at >= locks[n - 1].to {
        Push(Lock(at, until, Ongoing, None));
        refused := Some(admitted);
        TrimLocks();
        return true;
      }
      var last := locks[n - 1];
      changed := false;
      if at < last.from {
        if n > 1 && at < locks[n - 2].to {
          return false;
        }
        last, changed := last.(from := at), true;
      } else if last.end.Ongoing? || last.end.Served? {
        changed := last.to != until || !last.end.Ongoing?;
        last := Lock(last.from, until, Ongoing, None);
      }
      assert locks[..n - 1] + [locks[n - 1]] == locks;
      locks := locks[..n - 1] + [last];
      if After(admitted, refused) {
        refused := Some(admitted);
      }
    }

    method Serve(admitted: int, at: int) returns (changed: bool)
      modifies this`locks, this`served
      ensures (State().spans, changed) == History.Serve(old(State().spans), admitted, at)
    {
      if After(admitted, served) {
        served := Some(admitted);
      }
      var n := |locks|;
      if n == 0 || !locks[n - 1].end.Ongoing? || !After(admitted, refused) {
        return false;
      }
      if Truncate(at) <= locks[n - 1].from {
        locks := locks[..n - 1];
        return true;
      }
      changed := End(at, Served);
    }

    method End(at0: int, cause: LockEnd) returns (changed: bool)
      modifies this`locks
      ensures (State().spans, changed) == EndSpan(old(State().spans), at0, cause)
    {
      var at, n := Truncate(at0), |locks|;
      if n == 0 {
        return false;
      }
      var last := locks[n - 1];
      if !last.end.Ongoing? || at <= last.from {
        return false;
      }
      if at < last.to {
        last := last.(to := at, end := cause, expected := Some(last.to));
      } else {
        last := last.(end := Reset);
      }
      locks := locks[..n - 1] + [last];
      return true;
    }

    method Push(l: Lock)
      modifies this`locks
      ensures locks == History.Push(old(locks), l)
    {
      var n := |locks|;
      if n > 0 && locks[n - 1].end.Ongoing? {
        locks := locks[..n - 1] + [locks[n - 1].(end := Reset)];
      }
      locks := locks + [l];
    }

    method MergeLock(l: Lock)
      modifies this`locks
      ensures locks == History.MergeLock(old(locks), l)
    {
      if l.to <= l.from {
        return;
      }
      var n := |locks|;
      if n == 0 || l.from >= locks[n - 1].to {
        Push(l);
      } else if l.to > locks[n - 1].from {
        var last := locks[n - 1];
        if l.from < last.from {
          last := last.(from := l.from);
        }
        locks := locks[..n - 1] + [last.(to := l.to, end := l.end, expected := l.expected)];
      }
    }

    method TrimLocks()
      modifies this`locks
      ensures locks == History.TrimLocks(old(locks), Oldest(cycles))
    {
      var drop := 0;
      if |cycles| > 0 && |cycles[0].samples| > 0 {
        var oldest := cycles[0].samples[0].at;
        while drop < |locks| && locks[drop].to < oldest
          invariant 0 <= drop <= |locks|
          invariant drop + Passed(locks[drop..], Some(oldest)) == Passed(locks, Some(oldest))
        {
          assert locks[drop..][1..] == locks[drop + 1..];
          drop := drop + 1;
        }
      }
      drop := Max(drop, |locks| - MAX_LOCKS);
      if drop > 0 {
        locks := locks[drop..];
      }
    }

    // ----- publication and replay

    method Export(max: int, now: int) returns (out: WindowHistory)
      ensures out == HistoryPublish.Export(State(), max, now)
    {
      var newest, older := ChooseSteps(max);
      var n, copied := |cycles|, [];
      for i := 0 to n
        invariant |copied| == i
        invariant forall k :: 0 <= k < i ==> copied[k] == ThinCycle(cycles[k], if k == n - 1 then newest else older)
      {
        var step := if i == n - 1 then newest else older;
        var kept := ThinSamples(cycles[i].samples, step);
        copied := copied + [cycles[i].(samples := kept)];
      }
      var spans := CopyLocks(now);
      assert n > 0 ==> copied == ThinAll(Front(cycles), older) + [ThinCycle(Last(cycles), newest)];
      out := WindowHistory(copied, spans);
    }

    method ChooseSteps(max: int) returns (newest: nat, older: nat)
      ensures (newest, older) == StepsFor(cycles, max)
    {
      hide KeptCount, FinestStep;
      newest, older := 0, 0;
      var n := |cycles|;
      if max > 0 && n > 0 {
        var cur, past := cycles[n - 1..], cycles[..n - 1];
        assert cur == [Last(cycles)] && past == Front(cycles);
        var behind := CountKept(past, COARSEST);
        var room := max - behind;
        var floor := CountKept(cur, QUARTER);
        if room < floor && floor <= max {
          room := floor;
        }
        newest := PickFinestStep(cur, room);
        var held := CountKept(cur, newest);
        older := PickFinestStep(past, max - held);
      }
    }

    method CopyLocks(now: int) returns (spans: seq<StoredLock>)
      ensures spans == ExportLocks(locks, now)
    {
      spans := [];
      for i := 0 to |locks|
        invariant spans == ExportLocks(locks, now)[..i]
      {
        var l := locks[i];
        if l.end.Ongoing? && l.to <= now {
          l := l.(end := Reset);
        }
        var expected := if l.expected.Some? then l.expected.value / SECOND else 0;
        spans := spans + [StoredLock(l.from / SECOND, l.to / SECOND, l.end, expected)];
      }
    }

    method Replay(h: WindowHistory, loaded: int)
      requires State() == EMPTY_RING && !replaying
      modifies this
      ensures State() == HistoryReplay.Replay(h, loaded) && !replaying
    {
      hide ReplayCycles, RestoreLocks, RestoreLock, History.Compact, History.TrimLocks, History.MergeLock;
      AddCycles(h.cycles);
      RestoreNone();
      for i := 0 to |h.locks|
        invariant locks == RestoreLocks(h.locks[..i])
        invariant Track(cycles, fall) == ReplayCycles(h.cycles, |h.cycles|) && !replaying
        invariant refused.None? && served.None?
      {
        var l := h.locks[i];
        RestoreNext(h.locks, i);
        MergeLock(Lock(l.from * SECOND, l.to * SECOND, l.end, if l.expected != 0 then Some(l.expected * SECOND) else None));
      }
      assert h.locks[..|h.locks|] == h.locks;
      if |locks| > 0 {
        refused := Some(loaded);
      }
      Compact();
    }

    method AddCycles(cs: seq<Cycle>)
      requires State() == EMPTY_RING
      modifies this
      ensures State() == Ring(ReplayCycles(cs, |cs|), EMPTY_SPANS) && !replaying
    {
      replaying := true;
      for i := 0 to |cs|
        invariant State() == Ring(ReplayCycles(cs, i), EMPTY_SPANS) && replaying
      {
        AddCycle(cs[i], i == 0);
      }
      replaying := false;
    }

    // One recorded cycle, sample by sample.
    method AddCycle(c: Cycle, first: bool)
      requires Filled(cycles) && State().spans == EMPTY_SPANS && replaying
      modifies this
      ensures State() == Ring(ReplayCycle(old(State().track), c, first), EMPTY_SPANS) && replaying
    {
      hide AddSample, NearRoll, Closed, FallsUnder, CarriedOver, Truncate;
      ghost var was := State().track;
      var j := 0;
      while j < |c.samples|
        invariant j <= |c.samples| && Filled(cycles) && State().spans == EMPTY_SPANS && replaying
        invariant j == 0 ==> State().track == was
        invariant first || j > 0 ==> ReplayFrom(State().track, c, j) == ReplayCycle(was, c, first)
        decreases |c.samples| - j
      {
        var s := c.samples[j];
        var x := Reading(Some(s.at), Some(s.util), c.resetsAt);
        var estimated := SampleEstimated(c, s);
        if first || j > 0 {
          var _ := Add(x, estimated);
          j := j + 1;
          continue;
        }
        var n := |cycles|;
        if n > 0 {
          var cur := cycles[n - 1];
          if s.at <= cur.samples[|cur.samples| - 1].at || EndedBefore(cur.resetsAt, c.resetsAt, s.at) {
            break;
          }
          if !estimated && |c.samples| == 1 && NearRoll(cycles, s.at) && !Rolled(cur.resetsAt, c.resetsAt)
             && !Closed(cur, s.at) && !FallsUnder(cur, s, false) {
            if !CarriedOver(cycles, Sample(Truncate(s.at), s.util)) {
              var _ := Add(x, estimated);
            }
            j := j + 1;
            continue;
          }
        }
        fall := None;
        cycles := cycles + [Cycle(c.resetsAt, [s], estimated, None)];
        j := j + 1;
      }
    }
  }
}
