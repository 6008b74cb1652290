/** What every recorded reading keeps of the cycles and the refusal spans. */
module HistoryInvariants {
  import opened Basics
  import opened History

  // ----- one cycle

  // The pair an estimate's end falls between, the one pair its spacing and
  // flat-run rules do not bind.
  ghost predicate Across(a: Sample, b: Sample, until: Option<int>) {
    until.Some? && a.at <= until.value < b.at
  }

  ghost predicate Whole(s: seq<Sample>) {
    forall i :: 0 <= i < |s| ==> s[i].at % SECOND == 0
  }

  ghost predicate Ordered(s: seq<Sample>) {
    forall i, j :: 0 <= i < j < |s| ==> s[i].at < s[j].at && s[i].util <= s[j].util
  }

  ghost predicate Spaced(s: seq<Sample>, until: Option<int>) {
    forall i, j :: 0 <= i < j < |s| ==> s[j].at - s[i].at >= FINE_STEP || Across(s[i], s[j], until)
  }

  // No level is held by three samples in a row.
  ghost predicate Folded(s: seq<Sample>, until: Option<int>) {
    forall i, j, k :: 0 <= i < j < k < |s| && s[i].util == s[k].util ==> Across(s[j], s[k], until)
  }

  ghost predicate Rising(s: seq<Sample>, until: Option<int>) {
    Whole(s) && Ordered(s) && Spaced(s, until) && Folded(s, until)
  }

  ghost predicate CycleOk(c: Cycle) {
    && c.samples != [] && Rising(c.samples, c.until)
    && (c.estimated ==> c.until.None?)
    && (c.until.Some? ==> c.until.value < Last(c.samples).at)
  }

  ghost predicate CyclesOk(cs: seq<Cycle>) {
    forall i :: 0 <= i < |cs| ==> CycleOk(cs[i])
  }

  // A pending fall is newer than the newest sample and far under it.
  ghost predicate TrackOk(t: Track) {
    && CyclesOk(t.cycles)
    && (t.fall.Some? ==> t.cycles != [] && t.fall.value.sample.at % SECOND == 0
                         && FallsUnder(Last(t.cycles), t.fall.value.sample, false))
  }

  lemma OrderedAppend(s: seq<Sample>, x: Sample)
    requires s != [] && Ordered(s) && Last(s).at < x.at && Last(s).util <= x.util
    ensures Ordered(s + [x])
  {
    forall i | 0 <= i < |s|
      ensures s[i].at < x.at && s[i].util <= x.util
    {
      assert i < |s| - 1 ==> s[i].at < Last(s).at;
    }
  }

  lemma SpacedAppend(s: seq<Sample>, x: Sample, until: Option<int>)
    requires s != [] && Spaced(s, until) && Last(s).at < x.at
    requires x.at - Last(s).at >= FINE_STEP || Across(Last(s), x, until)
    ensures Spaced(s + [x], until)
  {
    forall i | 0 <= i < |s|
      ensures x.at - s[i].at >= FINE_STEP || Across(s[i], x, until)
    {
      assert i < |s| - 1 ==> Last(s).at - s[i].at >= FINE_STEP || Across(s[i], Last(s), until);
    }
  }

  lemma FoldedAppend(s: seq<Sample>, x: Sample, until: Option<int>)
    requires s != [] && Ordered(s) && Folded(s, until) && Last(s).at < x.at && Last(s).util <= x.util
    requires |s| >= 2 && s[|s| - 2].util == x.util ==> Across(Last(s), x, until)
    ensures Folded(s + [x], until)
  {
    var n := |s|;
    forall i, j | 0 <= i < j < n && s[i].util == x.util
      ensures Across(s[j], x, until)
    {
      assert i <= n - 2 && s[i].util <= s[n - 2].util <= s[n - 1].util;
    }
  }

  lemma RisingAppend(s: seq<Sample>, x: Sample, until: Option<int>)
    requires s != [] && Rising(s, until) && x.at % SECOND == 0
    requires Last(s).at < x.at && Last(s).util <= x.util
    requires x.at - Last(s).at >= FINE_STEP || Across(Last(s), x, until)
    requires |s| >= 2 && s[|s| - 2].util == x.util ==> Across(Last(s), x, until)
    ensures Rising(s + [x], until)
  {
    OrderedAppend(s, x);
    SpacedAppend(s, x, until);
    FoldedAppend(s, x, until);
  }

  // Moving the last sample forward to x keeps the cycle rising.
  lemma RisingReplace(s: seq<Sample>, x: Sample, until: Option<int>)
    requires s != [] && Rising(s, until) && x.at % SECOND == 0
    requires Last(s).at < x.at && Last(s).util <= x.util
    ensures Rising(Front(s) + [x], until)
  {
    var p, n := Front(s), |s|;
    assert Rising(p, until);
    if p == [] {
      assert Front(s) + [x] == [x];
    } else {
      assert s[n - 2].at < s[n - 1].at && s[n - 2].util <= s[n - 1].util;
      if n >= 3 && s[n - 3].util == x.util {
        assert s[n - 3].util <= s[n - 1].util;
        assert Across(s[n - 2], s[n - 1], until);
      }
      RisingAppend(p, x, until);
    }
  }

  lemma LastTwo(s: seq<Sample>, until: Option<int>)
    requires |s| >= 2 && Rising(s, until)
    ensures s[|s| - 2].at < Last(s).at && s[|s| - 2].util <= Last(s).util
  {
  }

  lemma RisingUntil(s: seq<Sample>, until: int)
    requires Rising(s, None)
    ensures Rising(s, Some(until))
  {
  }

  lemma AbsorbOk(c: Cycle, s: Sample, estimated: bool)
    requires CycleOk(c) && s.at % SECOND == 0
    ensures CycleOk(Absorb(c, s, estimated).0)
  {
    hide Rising;
    var n, last := |c.samples|, Last(c.samples);
    if last.at < s.at && last.util <= s.util {
      if c.estimated && !estimated {
        RisingUntil(c.samples, last.at);
        RisingAppend(c.samples, s, Some(last.at));
      } else {
        RisingReplace(c.samples, s, c.until);
        if n >= 2 { LastTwo(c.samples, c.until); }
        if FINE_STEP <= s.at - last.at && (n >= 2 && c.samples[n - 2].util == s.util ==> last.util != s.util) {
          RisingAppend(c.samples, s, c.until);
        }
      }
    }
  }

  lemma SettleWhole(c: Cycle, s: Sample, estimated: bool)
    requires c.samples != []
    ensures Settle(c, s, estimated).at == s.at
  {
  }

  lemma ExtendOk(cs: seq<Cycle>, s: Sample, resetsAt: Option<int>, estimated: bool, replaying: bool)
    requires cs != [] && CyclesOk(cs) && s.at % SECOND == 0
    ensures CyclesOk(Extend(cs, s, resetsAt, estimated, replaying).0)
  {
    hide Rising, CarriedOver, Absorb, Settle;
    var c := Named(Last(cs), resetsAt);
    assert CycleOk(Last(cs));
    assert CycleOk(c);
    SettleWhole(c, s, estimated);
    AbsorbOk(c, Settle(c, s, estimated), estimated);
    var cs' := Extend(cs, s, resetsAt, estimated, replaying).0;
    assert Front(cs') == Front(cs);
    assert Last(cs') == c || Last(cs') == Absorb(c, Settle(c, s, estimated), estimated).0;
  }

  lemma AddSampleOk(t: Track, s: Sample, resetsAt: Option<int>, estimated: bool, replaying: bool)
    requires TrackOk(t) && s.at % SECOND == 0
    ensures TrackOk(AddSample(t, s, resetsAt, estimated, replaying).track)
  {
    var cs := t.cycles;
    if cs == [] || EndedBefore(Last(cs).resetsAt, resetsAt, s.at) || Rolled(Last(cs).resetsAt, resetsAt) || Closed(Last(cs), s.at) {
    } else if !FallsUnder(Last(cs), s, estimated) {
      ExtendOk(cs, s, resetsAt, estimated, replaying);
    } else if t.fall.Some? && s.at > t.fall.value.sample.at && t.fall.value.sample.util - s.util <= CLEAR_DROP {
      ExtendOk(cs + [Cycle(t.fall.value.resetsAt, [t.fall.value.sample], false, None)], s, resetsAt, estimated, replaying);
    }
  }

  // ----- compaction keeps it

  lemma {:induction false} CoarsenPicks(s: seq<Sample>, edge: int) returns (idx: seq<nat>)
    ensures Picks(idx, Coarsen(s, edge), s)
  {
    if |s| <= 1 {
      idx := seq(|s|, i => i);
    } else {
      var rest := CoarsenPicks(s[1..], edge);
      PicksCons(rest, Coarsen(s[1..], edge), s);
      idx := if Superseded(s[0], s[1], edge) then Shift(rest) else [0] + Shift(rest);
    }
  }

  lemma RisingPicked(s: seq<Sample>, out: seq<Sample>, idx: seq<nat>, until: Option<int>)
    requires Rising(s, until) && Picks(idx, out, s)
    ensures Rising(out, until)
  {
  }

  lemma CoarsenCycleOk(c: Cycle, edge: int)
    requires CycleOk(c)
    ensures CycleOk(CoarsenCycle(c, edge))
  {
    var idx := CoarsenPicks(c.samples, edge);
    RisingPicked(c.samples, Coarsen(c.samples, edge), idx, c.until);
  }

  lemma TrimmedOk(c: Cycle, drop: nat)
    requires CycleOk(c) && drop < |c.samples|
    ensures CycleOk(Trimmed(c, drop))
  {
    hide Rising;
    var rest := c.samples[drop..];
    RisingPicked(c.samples, rest, seq(|rest|, k requires 0 <= k < |rest| => k + drop), c.until);
    if c.until.Some? && rest[0].at > c.until.value {
      RisingObserved(rest, c.until.value);
    }
  }

  lemma RisingObserved(s: seq<Sample>, until: int)
    requires s != [] && Rising(s, Some(until)) && s[0].at > until
    ensures Rising(s, None)
  {
    forall i | 0 <= i < |s|
      ensures until < s[i].at
    {
      assert i > 0 ==> s[0].at < s[i].at;
    }
  }

  lemma {:induction false} EvictOk(cs: seq<Cycle>, drop: nat)
    requires CyclesOk(cs) && drop <= Total(cs)
    ensures CyclesOk(Evict(cs, drop))
  {
    hide CycleOk, Trimmed;
    if drop > 0 {
      assert CycleOk(cs[0]);
      if |cs[0].samples| <= drop {
        EvictOk(cs[1..], drop - |cs[0].samples|);
      } else {
        TrimmedOk(cs[0], drop);
      }
    }
  }

  lemma CompactOk(cs: seq<Cycle>)
    requires CyclesOk(cs)
    ensures CyclesOk(Tiered(cs)) && CyclesOk(Compact(cs))
  {
    var tiered := Tiered(cs);
    forall i | 0 <= i < |tiered|
      ensures CycleOk(tiered[i])
    {
      CoarsenCycleOk(cs[i], Edge(cs));
    }
    EvictOk(tiered, Max(0, Total(tiered) - MAX_SAMPLES));
  }

  lemma AddOk(t: Track, x: Reading, estimated: bool)
    requires TrackOk(t)
    ensures TrackOk(Add(t, x, estimated).track)
    ensures Add(t, x, estimated).changed ==> Add(t, x, estimated).track.fall.None?
  {
    if x.at.Some? && x.util.Some? {
      AddSampleOk(t, Sample(Truncate(x.at.value), x.util.value), x.resetsAt, estimated, false);
    }
  }

  lemma PutTrackOk(t: Track, x: Reading, estimated: bool)
    requires TrackOk(t)
    ensures TrackOk(PutTrack(t, x, estimated))
  {
    AddOk(t, x, estimated);
    CompactOk(Add(t, x, estimated).track.cycles);
  }

  // ----- refusal spans

  ghost predicate SpanOk(l: Lock) {
    l.from < l.to && l.from % SECOND == 0 && l.to % SECOND == 0 &&
    (l.expected.Some? ==> l.to < l.expected.value && l.expected.value % SECOND == 0) &&
    (l.end.Ongoing? ==> l.expected.None?)
  }

  // Spans have a length, are oldest first and disjoint, and only the newest
  // is ongoing.
  ghost predicate LocksOk(locks: seq<Lock>) {
    && (forall i :: 0 <= i < |locks| ==> SpanOk(locks[i]))
    && (forall i, j :: 0 <= i < j < |locks| ==> locks[i].to <= locks[j].from)
    && (forall i :: 0 <= i < |locks| - 1 ==> !locks[i].end.Ongoing?)
  }

  // While the newest span is ongoing, no served request was admitted after its
  // latest refusal.
  ghost predicate SpansOk(sp: Spans) {
    && LocksOk(sp.locks) && |sp.locks| <= MAX_LOCKS
    && (sp.locks != [] && Last(sp.locks).end.Ongoing? ==>
          sp.refused.Some? && (sp.served.Some? ==> sp.served.value <= sp.refused.value))
  }

  lemma LocksReplace(locks: seq<Lock>, l: Lock)
    requires locks != [] && LocksOk(locks) && SpanOk(l)
    requires |locks| >= 2 ==> locks[|locks| - 2].to <= l.from
    ensures LocksOk(Front(locks) + [l])
  {
    forall i | 0 <= i < |locks| - 1
      ensures locks[i].to <= l.from
    {
      assert i < |locks| - 2 ==> locks[i].to <= locks[|locks| - 2].from;
    }
  }

  lemma LocksPush(locks: seq<Lock>, l: Lock)
    requires LocksOk(locks) && SpanOk(l) && (locks != [] ==> Last(locks).to <= l.from)
    ensures LocksOk(Push(locks, l))
  {
    var pushed := Push(locks, l);
    forall i | 0 <= i < |locks|
      ensures pushed[i].to <= l.from && !pushed[i].end.Ongoing?
    {
      assert i < |locks| - 1 ==> locks[i].to <= Last(locks).from;
    }
  }

  lemma LastLock(locks: seq<Lock>)
    requires locks != [] && LocksOk(locks)
    ensures SpanOk(Last(locks)) && LocksOk(Front(locks))
    ensures |locks| >= 2 ==> locks[|locks| - 2].to <= Last(locks).from && !locks[|locks| - 2].end.Ongoing?
  {
  }

  lemma EndSpanOk(sp: Spans, at: int, cause: LockEnd)
    requires SpansOk(sp) && !cause.Ongoing?
    ensures SpansOk(EndSpan(sp, at, cause).0)
  {
    hide LocksOk;
    if EndSpan(sp, at, cause).1 {
      LastLock(sp.locks);
      LocksReplace(sp.locks, Last(EndSpan(sp, at, cause).0.locks));
    }
  }

  lemma TrimOk(locks: seq<Lock>, oldest: Option<int>)
    requires LocksOk(locks)
    ensures LocksOk(TrimLocks(locks, oldest)) && |TrimLocks(locks, oldest)| <= MAX_LOCKS
    ensures TrimLocks(locks, oldest) != [] ==> Last(TrimLocks(locks, oldest)) == Last(locks)
  {
  }

  lemma TrimSpansOk(sp: Spans, oldest: Option<int>)
    requires SpansOk(sp)
    ensures SpansOk(sp.(locks := TrimLocks(sp.locks, oldest)))
  {
    TrimOk(sp.locks, oldest);
  }

  lemma RefuseOk(sp: Spans, admitted: int, at: int, until: int, oldest: Option<int>)
    requires SpansOk(sp)
    ensures SpansOk(Refuse(sp, admitted, at, until, oldest).0)
  {
    hide LocksOk, Truncate, TrimLocks;
    var from, to, n := Truncate(at), Truncate(until), |sp.locks|;
    var sp' := Refuse(sp, admitted, at, until, oldest).0;
    if from < to && After(admitted, sp.served) {
      if n == 0 || from >= Last(sp.locks).to {
        LocksPush(sp.locks, Lock(from, to, Ongoing, None));
        TrimOk(Push(sp.locks, Lock(from, to, Ongoing, None)), oldest);
      } else {
        LastLock(sp.locks);
        if from >= Last(sp.locks).from || n < 2 || from >= sp.locks[n - 2].to {
          if sp'.locks != sp.locks {
            LocksReplace(sp.locks, Last(sp'.locks));
          }
        }
      }
    }
  }

  lemma ServeOk(sp: Spans, admitted: int, at: int)
    requires SpansOk(sp)
    ensures SpansOk(Serve(sp, admitted, at).0)
  {
    hide LocksOk, EndSpan;
    var sp1 := if After(admitted, sp.served) then sp.(served := Some(admitted)) else sp;
    if sp.locks != [] {
      LastLock(sp.locks);
      if Last(sp.locks).end.Ongoing? && After(admitted, sp.refused) && Truncate(at) > Last(sp.locks).from {
        ServedEnd(sp1, at);
      }
    }
  }

  // Ending the newest span leaves nothing ongoing, whatever was served since.
  lemma ServedEnd(sp: Spans, at: int)
    requires LocksOk(sp.locks) && |sp.locks| <= MAX_LOCKS
    requires sp.locks != [] && Last(sp.locks).end.Ongoing? && Truncate(at) > Last(sp.locks).from
    ensures SpansOk(EndSpan(sp, at, Served).0) && !Last(EndSpan(sp, at, Served).0.locks).end.Ongoing?
  {
    hide LocksOk;
    LastLock(sp.locks);
    LocksReplace(sp.locks, Last(EndSpan(sp, at, Served).0.locks));
  }

  // A recorded span merged behind the newest keeps the spans disjoint exactly
  // when it does not reach behind the second-newest one's end.
  lemma MergeLockDisjoint(locks: seq<Lock>, l: Lock)
    requires LocksOk(locks) && SpanOk(l)
    ensures LocksOk(MergeLock(locks, l)) <==>
            (|locks| < 2 || l.from >= locks[|locks| - 2].to || l.to <= Last(locks).from)
  {
    var n, merged := |locks|, MergeLock(locks, l);
    if n >= 2 {
      assert locks[n - 2].to <= locks[n - 1].from < locks[n - 1].to;
      if locks[n - 1].from < l.to && l.from < locks[n - 1].to {
        assert merged[n - 2] == locks[n - 2];
        assert merged[n - 1].from == Min(l.from, locks[n - 1].from);
      }
    }
  }

  // ----- every run

  datatype Op =
    | OpPut(x: Reading, estimated: bool)
    | OpRefuse(admitted: int, at: int, until: int)
    | OpServe(admitted: int, at: int)
    | OpClear(at: int)

  ghost predicate RingOk(r: Ring) { TrackOk(r.track) && SpansOk(r.spans) }

  // One operation the snapshot store makes on a ring. OpClear is the end it
  // puts to a span when a read drops the window.
  function Apply(r: Ring, op: Op): (r': Ring)
    requires Filled(r.track.cycles)
    ensures Filled(r'.track.cycles)
  {
    match op
    case OpPut(x, estimated) => Put(r, x, estimated)
    case OpRefuse(admitted, at, until) => r.(spans := Refuse(r.spans, admitted, at, until, Oldest(r.track.cycles)).0)
    case OpServe(admitted, at) => r.(spans := Serve(r.spans, admitted, at).0)
    case OpClear(at) => r.(spans := EndSpan(r.spans, at, Cleared).0)
  }

  lemma PutOk(r: Ring, x: Reading, estimated: bool)
    requires RingOk(r)
    ensures RingOk(Put(r, x, estimated))
  {
    hide SpansOk, PutTrack, EndSpan, TrimLocks;
    PutTrackOk(r.track, x, estimated);
    var step := Add(r.track, x, estimated);
    if step.ends.Some? {
      EndsByCause(r.track, x, estimated);
      EndSpanOk(r.spans, step.ends.value.0, step.ends.value.1);
    }
    TrimSpansOk(EndAt(r.spans, step.ends), Oldest(PutTrack(r.track, x, estimated).cycles));
  }

  lemma EndsByCause(t: Track, x: Reading, estimated: bool)
    requires Filled(t.cycles) && Add(t, x, estimated).ends.Some?
    ensures !Add(t, x, estimated).ends.value.1.Ongoing?
  {
  }

  lemma ApplyOk(r: Ring, op: Op)
    requires RingOk(r)
    ensures RingOk(Apply(r, op))
  {
    match op
    case OpPut(x, estimated) => PutOk(r, x, estimated);
    case OpRefuse(admitted, at, until) => RefuseOk(r.spans, admitted, at, until, Oldest(r.track.cycles));
    case OpServe(admitted, at) => ServeOk(r.spans, admitted, at);
    case OpClear(at) => EndSpanOk(r.spans, at, Cleared);
  }

  // The states a ring passes through, oldest first.
  ghost predicate Run(states: seq<Ring>, ops: seq<Op>) {
    && |states| == |ops| + 1 && states[0] == EMPTY_RING
    && (forall i :: 0 <= i < |ops| ==> Filled(states[i].track.cycles) && states[i + 1] == Apply(states[i], ops[i]))
  }

  // Every state of every run holds the ring invariant.
  lemma {:induction false} RunOk(states: seq<Ring>, ops: seq<Op>, n: nat)
    requires Run(states, ops) && n <= |ops|
    ensures RingOk(states[n])
  {
    if n > 0 {
      RunOk(states, ops, n - 1);
      ApplyOk(states[n - 1], ops[n - 1]);
    }
  }
}
