/** What the runs of a ring save and load: every ring is compacted as it
    stands, and a cycle straddles its own reset only through a clearing
    confirmed across the first fall's edge. */
module HistoryReload {
  import opened Basics
  import opened History
  import opened HistoryInvariants
  import opened HistoryCompaction
  import opened HistoryFalls
  import opened HistoryPublish
  import opened HistoryReplay

  // ----- every reachable ring is compacted

  ghost predicate Compacted(cs: seq<Cycle>)
    requires Filled(cs)
  {
    Tiered(cs) == cs && Total(cs) <= MAX_SAMPLES
  }

  lemma CompactedStays(cs: seq<Cycle>)
    requires Filled(cs) && Compacted(cs)
    ensures Compact(cs) == cs
  {
  }

  // Samples no two of which a coarsening at edge would fold.
  ghost predicate Apart(s: seq<Sample>, edge: int) {
    forall i :: 0 <= i < |s| - 1 ==> !Superseded(s[i], s[i + 1], edge)
  }

  lemma {:induction false} CoarsenApart(s: seq<Sample>, edge: int)
    ensures Apart(Coarsen(s, edge), edge)
  {
    hide Superseded, SameStep;
    if |s| >= 2 {
      var rest := Coarsen(s[1..], edge);
      CoarsenApart(s[1..], edge);
      HeadAlike(s[0], s[1..], edge, edge);
      if !Superseded(s[0], s[1], edge) {
        var out := [s[0]] + rest;
        forall i | 0 <= i < |out| - 1
          ensures !Superseded(out[i], out[i + 1], edge)
        {
          assert out[i + 1] == rest[i] && (i > 0 ==> out[i] == rest[i - 1]);
        }
      }
    }
  }

  lemma {:induction false} ApartStays(s: seq<Sample>, edge: int)
    requires Apart(s, edge)
    ensures Coarsen(s, edge) == s
  {
    hide Superseded;
    if |s| >= 2 {
      assert !Superseded(s[0], s[1], edge);
      forall i | 0 <= i < |s[1..]| - 1
        ensures !Superseded(s[1..][i], s[1..][i + 1], edge)
      {
        assert s[1..][i] == s[i + 1] && s[1..][i + 1] == s[i + 2];
      }
      ApartStays(s[1..], edge);
      assert s == [s[0]] + s[1..];
    }
  }

  // Every cycle is one a coarsening at edge leaves.
  ghost predicate AllApart(cs: seq<Cycle>, edge: int) {
    forall i :: 0 <= i < |cs| ==> Apart(cs[i].samples, edge)
  }

  lemma AllApartStays(cs: seq<Cycle>, edge: int)
    requires AllApart(cs, edge)
    ensures CoarsenAll(cs, edge) == cs
  {
    forall i | 0 <= i < |cs|
      ensures CoarsenCycle(cs[i], edge) == cs[i]
    {
      ApartStays(cs[i].samples, edge);
    }
  }

  lemma TieredApart(cs: seq<Cycle>)
    requires CyclesOk(cs) && cs != []
    ensures Filled(cs) && AllApart(Tiered(cs), Edge(cs))
  {
    hide Apart, CycleOk;
    FilledOk(cs);
    forall i | 0 <= i < |cs|
      ensures Apart(Tiered(cs)[i].samples, Edge(cs))
    {
      assert CycleOk(cs[i]);
      CoarsenCycleBlurs(cs[i], Edge(cs));
      CoarsenApart(cs[i].samples, Edge(cs));
    }
  }

  // Eviction leaves a suffix, so nothing new to coarsen, and the newest
  // sample.
  lemma {:induction false} EvictApart(cs: seq<Cycle>, drop: nat, edge: int)
    requires drop < Total(cs) && AllApart(cs, edge) && Filled(cs)
    ensures var out := Evict(cs, drop);
            AllApart(out, edge) && out != [] && Filled(out) && Last(Last(out).samples) == Last(Last(cs).samples)
  {
    hide Superseded;
    if drop > 0 {
      if |cs[0].samples| <= drop {
        EvictApart(cs[1..], drop - |cs[0].samples|, edge);
      }
    } else {
      TotalNone(cs);
    }
  }

  lemma TotalNone(cs: seq<Cycle>)
    ensures Total(cs) > 0 ==> cs != []
  {
  }

  // Compaction is idempotent.
  lemma CompactTwice(cs: seq<Cycle>)
    requires CyclesOk(cs)
    ensures Filled(cs) && Compacted(Compact(cs)) && Compact(Compact(cs)) == Compact(cs)
    ensures cs != [] ==> Compact(cs) != [] && Last(Last(Compact(cs)).samples) == Last(Last(cs).samples)
  {
    hide CycleOk, CoarsenAll, Apart, Evict;
    FilledOk(cs);
    if cs == [] {
      EmptyCompacted();
    } else {
      var tiered, edge := Tiered(cs), Edge(cs);
      TieredApart(cs);
      CompactKeepsNewest(cs);
      var drop := Max(0, Total(tiered) - MAX_SAMPLES);
      TieredNewest(cs);
      TotalSome(tiered);
      EvictApart(tiered, drop, edge);
      var out := Compact(cs);
      assert out == Evict(tiered, drop) && Edge(out) == edge;
      AllApartStays(out, edge);
      assert Compacted(out);
      CompactedStays(out);
    }
  }

  lemma EmptyCompacted()
    ensures Compact([]) == [] && Compacted([])
  {
  }

  lemma TieredNewest(cs: seq<Cycle>)
    requires cs != [] && Filled(cs)
    ensures Last(Last(Tiered(cs)).samples) == Last(Last(cs).samples)
  {
  }

  lemma TotalSome(cs: seq<Cycle>)
    requires cs != [] && Filled(cs)
    ensures Total(cs) > 0
  {
    assert |cs[0].samples| > 0;
  }

  // What makes a ring compacted reads no reset.
  lemma NamedCompacted(cs: seq<Cycle>, resetsAt: Option<int>)
    requires cs != [] && Filled(cs) && Compacted(cs)
    ensures var named := Front(cs) + [Named(Last(cs), resetsAt)]; Filled(named) && Compacted(named)
  {
    hide Coarsen;
    var named, edge := Front(cs) + [Named(Last(cs), resetsAt)], Edge(cs);
    assert Edge(named) == edge;
    forall i | 0 <= i < |cs|
      ensures CoarsenCycle(named[i], edge) == named[i]
    {
      assert CoarsenCycle(cs[i], edge) == cs[i];
    }
    assert cs == Front(cs) + [Last(cs)];
    TotalSnoc(Front(cs), Last(cs));
    TotalSnoc(Front(cs), Named(Last(cs), resetsAt));
  }

  lemma PutCompacted(t: Track, x: Reading, estimated: bool)
    requires TrackOk(t) && Filled(t.cycles) && Compacted(t.cycles)
    ensures Compacted(PutTrack(t, x, estimated).cycles)
  {
    hide Compacted, Compact, AddSample, CycleOk;
    var step := Add(t, x, estimated);
    AddOk(t, x, estimated);
    if step.changed {
      TrackParts(step.track);
      CompactTwice(step.track.cycles);
    } else if x.at.Some? && x.util.Some? && step.track.cycles != t.cycles {
      UnreportedChange(t, Sample(Truncate(x.at.value), x.util.value), x.resetsAt, estimated);
      NamedCompacted(t.cycles, x.resetsAt);
    }
  }

  lemma ApplyCompacted(r: Ring, op: Op)
    requires RingOk(r) && Filled(r.track.cycles) && Compacted(r.track.cycles)
    ensures Compacted(Apply(r, op).track.cycles)
  {
    hide Compacted, PutTrack, TrackOk, SpansOk, Refuse, Serve;
    match op
    case OpPut(x, estimated) => PutCompacted(r.track, x, estimated);
    case _ =>
  }

  // The ring of every state of every run is compacted as it stands.
  lemma {:induction false} RunCompacted(states: seq<Ring>, ops: seq<Op>, n: nat)
    requires Run(states, ops) && n <= |ops|
    ensures Filled(states[n].track.cycles) && Compacted(states[n].track.cycles)
    ensures Compact(states[n].track.cycles) == states[n].track.cycles
  {
    hide Compacted, Compact, Apply, RingOk;
    if n > 0 {
      RunCompacted(states, ops, n - 1);
      RunOk(states, ops, n - 1);
      ApplyCompacted(states[n - 1], ops[n - 1]);
    } else {
      EmptyCompacted();
    }
    CompactedStays(states[n].track.cycles);
  }

  // So the ring of any state of a run, when it holds no estimate, comes back
  // from a file cycle for cycle exactly when each cycle opens one of its own
  // and none straddles its reset.
  lemma SavedRunComesBack(states: seq<Ring>, ops: seq<Op>, n: nat, now: int, loaded: int)
    requires Run(states, ops) && n <= |ops|
    requires Observed(states[n].track.cycles)
    ensures Filled(states[n].track.cycles)
    ensures Replay(Export(states[n], 0, now), loaded).track.cycles == states[n].track.cycles <==> Replayable(states[n].track.cycles)
  {
    hide Replayable, Compacted, RingOk, Replay;
    RunCompacted(states, ops, n);
    RunOk(states, ops, n);
    ExportReplayCycles(states[n], now, loaded);
  }

  // ----- which cycles straddle

  // The guard on the resets a reading may name: no more than the tolerance
  // before the reading.
  predicate Timely(x: Reading) {
    x.at.Some? && x.resetsAt.Some? ==> x.at.value - RESET_TOLERANCE <= x.resetsAt.value
  }

  ghost predicate AllOneSided(cs: seq<Cycle>)
    requires Filled(cs)
  {
    forall i :: 0 <= i < |cs| ==> OneSided(cs[i])
  }

  // A pending fall is inside the edge of the reset it named.
  ghost predicate FallInside(t: Track) {
    t.fall.Some? && t.fall.value.resetsAt.Some? ==> t.fall.value.sample.at <= t.fall.value.resetsAt.value + RESET_TOLERANCE
  }

  // A clearing confirmed past the edge of the reset its first fall named, by a
  // reading that joins the cycle that fall opens.
  ghost predicate ClearsAcross(t: Track, e: Entry) {
    Confirms(t, e) &&
    var f, s := t.fall.value, SampleOf(e);
    && f.sample.util - s.util <= CLEAR_DROP && f.resetsAt.Some?
    && f.resetsAt.value + RESET_TOLERANCE < s.at && FINE_STEP <= s.at - f.sample.at
  }

  lemma OneSidedNamed(c: Cycle, s: Sample, resetsAt: Option<int>)
    requires CycleOk(c) && OneSided(c) && Last(c.samples).at <= s.at
    requires resetsAt.Some? ==> s.at <= resetsAt.value + RESET_TOLERANCE
    ensures OneSided(Named(c, resetsAt))
  {
  }

  // A reading that stays in a one-sided cycle and does not close it is on the
  // side the cycle is.
  lemma OneSidedAbsorbs(c: Cycle, s: Sample, estimated: bool)
    requires CycleOk(c) && OneSided(c) && !Closed(c, s.at)
    ensures OneSided(Absorb(c, s, estimated).0)
  {
    var first, last := c.samples[0], Last(c.samples);
    assert first.at <= last.at;
  }

  lemma ExtendOneSided(cs: seq<Cycle>, s: Sample, resetsAt: Option<int>, estimated: bool)
    requires CyclesOk(cs) && Filled(cs) && AllOneSided(cs) && cs != []
    requires Last(Last(cs).samples).at <= s.at && !Closed(Last(cs), s.at)
    requires resetsAt.Some? ==> s.at <= resetsAt.value + RESET_TOLERANCE
    ensures AllOneSided(Extend(cs, s, resetsAt, estimated, false).0)
  {
    hide OneSided, Absorb, CarriedOver, CycleOk;
    var c := Named(Last(cs), resetsAt);
    assert OneSided(Last(cs)) && CycleOk(Last(cs));
    NamedOk(Last(cs), resetsAt, s);
    OneSidedNamed(Last(cs), s, resetsAt);
    SettleWhole(c, s, estimated);
    OneSidedAbsorbs(c, Settle(c, s, estimated), estimated);
    var out := Extend(cs, s, resetsAt, estimated, false).0;
    forall i | 0 <= i < |cs| - 1
      ensures OneSided(out[i])
    {
      assert out[i] == Front(out)[i] == cs[i];
    }
  }

  lemma NamedOk(c: Cycle, resetsAt: Option<int>, s: Sample)
    requires CycleOk(c) && !Closed(c, s.at)
    requires resetsAt.Some? ==> s.at <= resetsAt.value + RESET_TOLERANCE
    ensures CycleOk(Named(c, resetsAt)) && !Closed(Named(c, resetsAt), s.at)
  {
  }

  // The cycle a confirmed clearing leaves.
  lemma ClearedCycle(t: Track, e: Entry)
    requires TrackOk(t) && Filled(t.cycles) && FallInside(t) && Confirms(t, e) && Timely(e.x)
    ensures var t' := Add(t, e.x, e.estimated).track;
            && t'.cycles != [] && Front(t'.cycles) == t.cycles && Last(t'.cycles).samples != [] && t'.fall.None?
            && (OneSided(Last(t'.cycles)) <==> !ClearsAcross(t, e))
  {
    hide CarriedOver;
    var f, s := t.fall.value, SampleOf(e);
    TruncateFacts(e.x.at.value, e.x.at.value);
    assert s.at <= e.x.at.value;
    FallConfirms(t, s, e.x.resetsAt);
  }

  // A reading that confirms no clearing leaves the cycles, opens one of its
  // own, or stays in the newest.
  lemma AddShapes(t: Track, e: Entry)
    requires TrackOk(t) && Filled(t.cycles) && !Confirms(t, e) && e.x.at.Some? && e.x.util.Some?
    ensures var t', s := Add(t, e.x, e.estimated).track, SampleOf(e);
            && (|| t'.cycles == t.cycles
                || t'.cycles == t.cycles + [Cycle(e.x.resetsAt, [s], e.estimated, None)]
                || (t.cycles != [] && !Closed(Last(t.cycles), s.at)
                    && t'.cycles == Extend(t.cycles, s, e.x.resetsAt, e.estimated, false).0))
            && (t'.fall.None? || t'.fall == t.fall || t'.fall == Some(Fall(s, e.x.resetsAt)))
  {
    hide Extend, EndedBefore, Rolled, Closed, FallsUnder;
  }

  // One timely reading, in time order: the cycles stay one-sided unless it
  // confirms a clearing across an edge.
  lemma AddOneSided(t: Track, e: Entry)
    requires TrackOk(t) && Filled(t.cycles) && AllOneSided(t.cycles) && FallInside(t) && Timely(e.x)
    requires e.x.at.Some? ==> UpTo(t, Truncate(e.x.at.value))
    ensures AllOneSided(Add(t, e.x, e.estimated).track.cycles) <==> !ClearsAcross(t, e)
    ensures FallInside(Add(t, e.x, e.estimated).track)
  {
    hide OneSided, AllOneSided, Extend, CycleOk, Closed, Confirms, AddSample;
    var t' := Add(t, e.x, e.estimated).track;
    if Confirms(t, e) {
      ClearedCycle(t, e);
      OneMore(t.cycles, t'.cycles);
    } else if e.x.at.Some? && e.x.util.Some? {
      var s := SampleOf(e);
      var alone := Cycle(e.x.resetsAt, [s], e.estimated, None);
      TruncateFacts(e.x.at.value, e.x.at.value);
      AddShapes(t, e);
      OneAlone(alone);
      OneMore(t.cycles, t.cycles + [alone]);
      if t.cycles != [] && !Closed(Last(t.cycles), s.at) {
        TrackParts(t);
        ExtendOneSided(t.cycles, s, e.x.resetsAt, e.estimated);
      }
    }
  }

  lemma OneAlone(c: Cycle)
    ensures |c.samples| == 1 ==> OneSided(c)
  {
  }

  lemma OneMore(cs: seq<Cycle>, ds: seq<Cycle>)
    requires Filled(cs) && Filled(ds) && ds != [] && Front(ds) == cs && AllOneSided(cs)
    ensures AllOneSided(ds) <==> OneSided(Last(ds))
  {
    hide OneSided;
    assert forall i :: 0 <= i < |cs| ==> ds[i] == cs[i];
  }

  lemma OneSidedPart(c: Cycle, d: Cycle, idx: seq<nat>)
    requires CycleOk(c) && OneSided(c) && d.samples != [] && d.resetsAt == c.resetsAt && Picks(idx, d.samples, c.samples)
    ensures OneSided(d)
  {
    assert d.samples[0] == c.samples[idx[0]] && Last(d.samples) == c.samples[idx[|d.samples| - 1]];
    assert c.samples[0].at <= c.samples[idx[0]].at && Last(d.samples).at <= Last(c.samples).at;
  }

  lemma {:induction false} EvictOneSided(cs: seq<Cycle>, drop: nat)
    requires CyclesOk(cs) && Filled(cs) && AllOneSided(cs) && drop <= Total(cs)
    ensures Filled(Evict(cs, drop)) && AllOneSided(Evict(cs, drop))
  {
    hide OneSided, CycleOk;
    if drop > 0 {
      if |cs[0].samples| <= drop {
        EvictOneSided(cs[1..], drop - |cs[0].samples|);
      } else {
        var rest := cs[0].samples[drop..];
        OneSidedPart(cs[0], Trimmed(cs[0], drop), seq(|rest|, k requires 0 <= k < |rest| => k + drop));
      }
    }
  }

  // Compaction keeps samples of each cycle, so it makes none straddle.
  lemma CompactOneSided(cs: seq<Cycle>)
    requires CyclesOk(cs) && Filled(cs) && AllOneSided(cs)
    ensures AllOneSided(Compact(cs))
  {
    hide OneSided, CycleOk, Evict;
    var tiered := Tiered(cs);
    forall i | 0 <= i < |cs|
      ensures OneSided(tiered[i])
    {
      assert CycleOk(cs[i]) && OneSided(cs[i]);
      var idx := CoarsenPicks(cs[i].samples, Edge(cs));
      CoarsenCycleBlurs(cs[i], Edge(cs));
      OneSidedPart(cs[i], tiered[i], idx);
    }
    CompactOk(cs);
    EvictOneSided(tiered, Max(0, Total(tiered) - MAX_SAMPLES));
  }

  // ----- whole runs

  ghost predicate TimelyInOrder(es: seq<Entry>) {
    && (forall i :: 0 <= i < |es| ==> Timely(es[i].x))
    && (forall i, j :: 0 <= i < j < |es| && es[i].x.at.Some? && es[j].x.at.Some? ==> es[i].x.at.value <= es[j].x.at.value)
  }

  lemma PutUpTo(t: Track, e: Entry, m: int)
    requires TrackOk(t) && Filled(t.cycles) && UpTo(t, m) && (e.x.at.Some? ==> m == Truncate(e.x.at.value))
    ensures UpTo(PutTrack(t, e.x, e.estimated), m)
  {
    hide AddSample, Compact, CycleOk;
    AddOk(t, e.x, e.estimated);
    var added := Add(t, e.x, e.estimated).track;
    if e.x.at.Some? && e.x.util.Some? {
      AddUpTo(t, SampleOf(e), e.x.resetsAt, e.estimated);
    }
    TrackParts(added);
    CompactTwice(added.cycles);
  }

  // In every run of timely readings in time order, no cycle straddles its
  // reset's edge unless a clearing was confirmed across one.
  lemma {:induction false} OneSidedInRuns(ts: seq<Track>, es: seq<Entry>, n: nat, m: int)
    requires Tracks(ts, es) && n <= |es| && TimelyInOrder(es)
    requires forall i :: 0 <= i < n ==> !ClearsAcross(ts[i], es[i])
    requires forall i :: 0 <= i < n && es[i].x.at.Some? ==> es[i].x.at.value <= m
    ensures TrackOk(ts[n]) && Filled(ts[n].cycles) && UpTo(ts[n], Truncate(m))
    ensures AllOneSided(ts[n].cycles) && FallInside(ts[n])
  {
    hide AllOneSided, PutTrack, Timely, TrackOk, UpTo, ClearsAcross, FallInside;
    TracksOk(ts, es, n);
    if n == 0 {
      NoCycles(Truncate(m));
    } else {
      var t, e := ts[n - 1], es[n - 1];
      var at := if e.x.at.Some? then e.x.at.value else m;
      OneSidedInRuns(ts, es, n - 1, at);
      PutOneSided(t, e);
      PutUpTo(t, e, Truncate(at));
      UpToLater(ts[n], at, m);
    }
  }

  lemma NoCycles(m: int)
    ensures TrackOk(EMPTY_TRACK) && UpTo(EMPTY_TRACK, m) && AllOneSided(EMPTY_TRACK.cycles) && FallInside(EMPTY_TRACK)
  {
  }

  lemma PutOneSided(t: Track, e: Entry)
    requires TrackOk(t) && Filled(t.cycles) && AllOneSided(t.cycles) && FallInside(t) && Timely(e.x) && !ClearsAcross(t, e)
    requires e.x.at.Some? ==> UpTo(t, Truncate(e.x.at.value))
    ensures AllOneSided(PutTrack(t, e.x, e.estimated).cycles) && FallInside(PutTrack(t, e.x, e.estimated))
  {
    hide AllOneSided, Compact, AddSample, CycleOk, ClearsAcross;
    AddOneSided(t, e);
    AddOk(t, e.x, e.estimated);
    TrackParts(Add(t, e.x, e.estimated).track);
    CompactOneSided(Add(t, e.x, e.estimated).track.cycles);
  }

  // So a straddling cycle has a clearing confirmed across an edge behind it.
  lemma StraddlesByClearing(ts: seq<Track>, es: seq<Entry>, n: nat, k: nat) returns (i: nat)
    requires Tracks(ts, es) && n <= |es| && TimelyInOrder(es)
    requires k < |ts[n].cycles| && ts[n].cycles[k].samples != [] && !OneSided(ts[n].cycles[k])
    ensures i < n && ClearsAcross(ts[i], es[i])
  {
    hide OneSided, ClearsAcross, Timely, PutTrack, TrackOk, UpTo, FallInside;
    if forall i :: 0 <= i < n ==> !ClearsAcross(ts[i], es[i]) {
      var m := NewestOf(es, n);
      OneSidedInRuns(ts, es, n, m);
      assert false;
    }
    i :| 0 <= i < n && ClearsAcross(ts[i], es[i]);
  }

  lemma {:induction false} NewestOf(es: seq<Entry>, n: nat) returns (m: int)
    requires n <= |es|
    ensures forall i :: 0 <= i < n && es[i].x.at.Some? ==> es[i].x.at.value <= m
  {
    if n == 0 {
      m := 0;
    } else {
      m := NewestOf(es, n - 1);
      if es[n - 1].x.at.Some? { m := Max(m, es[n - 1].x.at.value); }
    }
  }

  // Without one, a run of timely observed readings in time order comes back
  // exactly when each cycle opens one of its own.
  lemma ComesBackByOpening(ts: seq<Track>, es: seq<Entry>, n: nat)
    requires Tracks(ts, es) && n <= |es| && TimelyInOrder(es) && Observed(ts[n].cycles)
    requires forall i :: 0 <= i < n ==> !ClearsAcross(ts[i], es[i])
    ensures Filled(ts[n].cycles)
    ensures ReplayCycles(ts[n].cycles, |ts[n].cycles|).cycles == ts[n].cycles <==>
            forall i :: 0 <= i < |ts[n].cycles| ==> Opens(ts[n].cycles, i)
  {
    hide OneSided, Opens, ClearsAcross, Timely, PutTrack, UpTo, FallInside, CycleOk, ReplayCycles;
    var m := NewestOf(es, n);
    OneSidedInRuns(ts, es, n, m);
    TrackParts(ts[n]);
    ReplayExact(ts[n].cycles);
  }

  // ----- a run that straddles

  lemma CompactRecent(cs: seq<Cycle>)
    requires Filled(cs) && cs != [] && Total(cs) <= MAX_SAMPLES
    requires forall i, j :: 0 <= i < |cs| && 0 <= j < |cs[i].samples| ==> Edge(cs) <= cs[i].samples[j].at
    ensures Compact(cs) == cs
  {
    forall i | 0 <= i < |cs|
      ensures CoarsenCycle(cs[i], Edge(cs)) == cs[i]
    {
      CoarsenFine(cs[i].samples, Edge(cs));
    }
    assert CoarsenAll(cs, Edge(cs)) == cs;
    CompactedStays(cs);
  }

  // A window near its end; the provider clears it and names its reset a minute
  // earlier; a second reading confirms the clearing after that reset's edge.
  const FULL := 9000
  const LOW := 100
  const OPENED := 3000 * SECOND
  const FELL := 3630 * SECOND
  const CONFIRMED := 3700 * SECOND

  function Open(t: int): Cycle { Cycle(Some(t + HOUR), [Sample(t + OPENED, FULL)], false, None) }

  function Across(t: int): Cycle {
    Cycle(Some(t + HOUR - MINUTE), [Sample(t + FELL, LOW), Sample(t + CONFIRMED, LOW)], false, None)
  }

  function StraddleReadings(t: int): seq<Entry> {
    [Entry(Reading(Some(t + OPENED), Some(FULL), Some(t + HOUR)), false),
     Entry(Reading(Some(t + FELL), Some(LOW), Some(t + HOUR - MINUTE)), false),
     Entry(Reading(Some(t + CONFIRMED), Some(LOW), Some(t + HOUR - 10 * SECOND)), false)]
  }

  function StraddleTracks(t: int): seq<Track> {
    [EMPTY_TRACK, Track([Open(t)], None),
     Track([Open(t)], Some(Fall(Sample(t + FELL, LOW), Some(t + HOUR - MINUTE)))),
     Track([Open(t), Across(t)], None)]
  }

  lemma FirstOpens(t: int)
    requires t % SECOND == 0
    ensures PutTrack(EMPTY_TRACK, StraddleReadings(t)[0].x, false) == StraddleTracks(t)[1]
  {
    hide Compact;
    TruncateFacts(t + OPENED, t + OPENED);
    assert [] + [Open(t)] == [Open(t)];
    assert Total([Open(t)]) == 1;
    CompactRecent([Open(t)]);
  }

  lemma SecondFalls(t: int)
    requires t % SECOND == 0
    ensures Filled([Open(t)]) && PutTrack(StraddleTracks(t)[1], StraddleReadings(t)[1].x, false) == StraddleTracks(t)[2]
  {
    hide Compact;
    TruncateFacts(t + FELL, t + FELL);
  }

  lemma ThirdConfirms(t: int)
    requires t % SECOND == 0
    ensures Filled([Open(t)]) && PutTrack(StraddleTracks(t)[2], StraddleReadings(t)[2].x, false) == StraddleTracks(t)[3]
  {
    hide Compact;
    TruncateFacts(t + CONFIRMED, t + CONFIRMED);
    var f, s := Sample(t + FELL, LOW), Sample(t + CONFIRMED, LOW);
    var fallen := Cycle(Some(t + HOUR - MINUTE), [f], false, None);
    var cs := [Open(t)] + [fallen];
    assert cs == [Open(t), fallen] && Front(cs) == [Open(t)] && fallen.samples + [s] == [f, s];
    assert Absorb(fallen, s, false) == (Across(t), true);
    assert Extend(cs, s, Some(t + HOUR - 10 * SECOND), false, false) == ([Open(t), Across(t)], true) by {
      assert Front(cs) + [Across(t)] == [Open(t), Across(t)];
    }
    var out := [Open(t), Across(t)];
    assert out[1..] == [Across(t)] && Total(out[1..]) == 2 && Total(out) == 3;
    CompactRecent(out);
  }

  lemma StraddleSplitsAgain(t: int)
    requires t % SECOND == 0
    ensures Filled([Open(t), Across(t)]) && |ReplayCycles([Open(t), Across(t)], 2).cycles| == 3
  {
    var cs, c := [Open(t), Across(t)], Across(t);
    TruncateFacts(t + OPENED, t + OPENED);
    TruncateFacts(t + CONFIRMED, t + CONFIRMED);
    assert ReplaySample(EMPTY_TRACK, cs[0], cs[0].samples[0]) == Track([Open(t)], None) by {
      assert [] + [Open(t)] == [Open(t)];
    }
    assert ReplayFrom(EMPTY_TRACK, cs[0], 0) == ReplayFrom(Track([Open(t)], None), cs[0], 1) == Track([Open(t)], None);
    assert ReplayCycles(cs, 1) == Track([Open(t)], None) by {
      assert ReplayCycles(cs, 0) == EMPTY_TRACK;
    }
    var begun := Track([Open(t)] + [Cycle(c.resetsAt, [c.samples[0]], false, None)], None);
    assert ReplayCycle(Track([Open(t)], None), c, false) == ReplayFrom(begun, c, 1);
    assert |ReplaySample(begun, c, c.samples[1]).cycles| == 3;
    assert ReplayFrom(begun, c, 1) == ReplayFrom(ReplaySample(begun, c, c.samples[1]), c, 2) == ReplaySample(begun, c, c.samples[1]);
  }

  // The run keeps time order and the guard, leaves a cycle on both sides of
  // its edge, and comes back with that cycle split.
  lemma StraddleComesBackSplit(t: int)
    requires t % SECOND == 0
    ensures Tracks(StraddleTracks(t), StraddleReadings(t)) && TimelyInOrder(StraddleReadings(t))
    ensures ClearsAcross(StraddleTracks(t)[2], StraddleReadings(t)[2]) && !OneSided(Across(t))
    ensures var cs := StraddleTracks(t)[3].cycles; |cs| == 2 && |ReplayCycles(cs, 2).cycles| == 3
  {
    hide PutTrack, ReplayCycles;
    FirstOpens(t);
    SecondFalls(t);
    ThirdConfirms(t);
    StraddleSplitsAgain(t);
    TruncateFacts(t + CONFIRMED, t + CONFIRMED);
  }
}
