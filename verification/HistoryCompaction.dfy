/** Compaction: what it keeps, when it evicts, and that compacting after every
    reading leaves what compacting once at the end does. */
module HistoryCompaction {
  import opened Basics
  import opened History
  import opened HistoryInvariants

  // ----- coarsening

  lemma SupersededAlike(a: Sample, h: Sample, b: Sample, e1: int, e2: int)
    requires e1 <= e2 && SameStep(h, b, COARSE_STEP) && (h == b || (h.at < e1 && b.at < e1))
    ensures Superseded(a, h, e2) == Superseded(a, b, e2)
    ensures Superseded(a, b, e1) ==> Superseded(a, b, e2)
  {
  }

  // Coarsening early never changes what a later coarsening leaves.
  lemma {:induction false} CoarsenAbsorbs(s: seq<Sample>, t: seq<Sample>, e1: int, e2: int)
    requires e1 <= e2
    ensures Coarsen(Coarsen(s, e1) + t, e2) == Coarsen(s + t, e2)
  {
    hide Coarsen;
    if |s| < 2 {
      CoarsenShort(s, e1);
    } else {
      CoarsenAbsorbs(s[1..], t, e1, e2);
      AbsorbsCons(s[0], s[1..], t, e1, e2);
      assert s == [s[0]] + s[1..] && s + t == [s[0]] + (s[1..] + t);
    }
  }

  lemma AbsorbsCons(a: Sample, s: seq<Sample>, t: seq<Sample>, e1: int, e2: int)
    requires s != [] && e1 <= e2 && Coarsen(Coarsen(s, e1) + t, e2) == Coarsen(s + t, e2)
    ensures Coarsen(Coarsen([a] + s, e1) + t, e2) == Coarsen([a] + (s + t), e2)
  {
    hide Coarsen, Superseded, SameStep;
    var rest := Coarsen(s, e1);
    HeadAlike(a, s, e1, e2);
    CoarsenCons(a, s, e1);
    assert (s + t)[0] == s[0] && (rest + t)[0] == rest[0];
    if Superseded(a, s[0], e1) {
      CoarsenCons(a, s + t, e2);
    } else {
      ConsAlike(a, rest + t, s + t, e2);
      assert [a] + rest + t == [a] + (rest + t);
    }
  }

  lemma ConsAlike(a: Sample, x: seq<Sample>, y: seq<Sample>, edge: int)
    requires x != [] && y != [] && Coarsen(x, edge) == Coarsen(y, edge)
    requires Superseded(a, x[0], edge) == Superseded(a, y[0], edge)
    ensures Coarsen([a] + x, edge) == Coarsen([a] + y, edge)
  {
    hide Coarsen, Superseded;
    CoarsenCons(a, x, edge);
    CoarsenCons(a, y, edge);
  }

  // Coarsening the rest first changes nothing for the sample ahead of it.
  lemma HeadAlike(a: Sample, s: seq<Sample>, e1: int, e2: int)
    requires s != [] && e1 <= e2
    ensures Superseded(a, Coarsen(s, e1)[0], e2) == Superseded(a, s[0], e2)
    ensures Superseded(a, s[0], e1) ==> Superseded(a, s[0], e2)
  {
    hide Coarsen;
    SupersededAlike(a, Coarsen(s, e1)[0], s[0], e1, e2);
  }

  lemma CoarsenShort(s: seq<Sample>, edge: int)
    requires |s| < 2
    ensures Coarsen(s, edge) == s
  {
  }

  lemma CoarsenCons(a: Sample, s: seq<Sample>, edge: int)
    requires s != []
    ensures Coarsen([a] + s, edge) == if Superseded(a, s[0], edge) then Coarsen(s, edge) else [a] + Coarsen(s, edge)
  {
    hide Superseded;
    assert ([a] + s)[1..] == s;
  }

  // The last two samples survive while the last is in the fine span.
  lemma {:induction false} CoarsenLast(s: seq<Sample>, edge: int)
    requires s != [] && edge <= Last(s).at
    ensures Coarsen(s, edge) == Coarsen(Front(s), edge) + [Last(s)]
  {
    hide SameStep;
    if |s| >= 2 {
      var p := Front(s);
      CoarsenLast(s[1..], edge);
      assert p[1..] == Front(s[1..]) && Last(s[1..]) == Last(s);
      if |s| >= 3 {
        assert p[0] == s[0] && p[1] == s[1];
      }
    }
  }

  lemma {:induction false} CoarsenFine(s: seq<Sample>, edge: int)
    requires forall i :: 0 <= i < |s| ==> edge <= s[i].at
    ensures Coarsen(s, edge) == s
  {
    if |s| >= 2 {
      CoarsenFine(s[1..], edge);
    }
  }

  lemma StepsInOrder(a: int, b: int)
    requires a <= b
    ensures a / COARSE_STEP <= b / COARSE_STEP
  {
  }

  // Coarsening keeps exactly the samples from the edge on and, before it, those
  // no later sample before it shares ten minutes with.
  lemma {:induction false} CoarsenExact(s: seq<Sample>, edge: int, i: nat)
    requires Ordered(s) && i < |s|
    ensures s[i] in Coarsen(s, edge) <==>
            edge <= s[i].at || forall j :: i < j < |s| && s[j].at < edge ==> s[j].at / COARSE_STEP != s[i].at / COARSE_STEP
  {
    if |s| >= 2 {
      assert s == [s[0]] + s[1..];
      if i > 0 {
        CoarsenExact(s[1..], edge, i - 1);
        assert s[i] == s[1..][i - 1] && s[0] != s[i];
        assert forall j :: i < j < |s| ==> s[j] == s[1..][j - 1];
      } else {
        HeadGone(s, edge);
        forall j | 0 < j < |s| && s[j].at < edge && s[j].at / COARSE_STEP == s[0].at / COARSE_STEP
          ensures Superseded(s[0], s[1], edge)
        {
          assert s[0].at < s[1].at <= s[j].at;
          StepsInOrder(s[0].at, s[1].at);
          StepsInOrder(s[1].at, s[j].at);
        }
      }
    }
  }

  lemma HeadGone(s: seq<Sample>, edge: int)
    requires Ordered(s) && |s| >= 2
    ensures s[0] !in Coarsen(s[1..], edge)
  {
    hide Coarsen;
    var out := Coarsen(s[1..], edge);
    var idx := CoarsenPicks(s[1..], edge);
    forall k | 0 <= k < |out|
      ensures out[k] != s[0]
    {
      assert out[k] == s[idx[k] + 1] && s[0].at < s[idx[k] + 1].at;
    }
  }

  function Blur(c: Cycle, edge: int): Cycle {
    c.(samples := Coarsen(c.samples, edge))
  }

  // On recorded cycles the guard in front of coarsen changes nothing.
  lemma CoarsenCycleBlurs(c: Cycle, edge: int)
    requires CycleOk(c)
    ensures CoarsenCycle(c, edge) == Blur(c, edge)
  {
    if edge <= c.samples[0].at {
      forall i | 0 <= i < |c.samples|
        ensures edge <= c.samples[i].at
      {
        assert i > 0 ==> c.samples[0].at < c.samples[i].at;
      }
      CoarsenFine(c.samples, edge);
    }
  }

  // ----- a reading meets a coarsened ring as it meets the raw one

  // l is r with every cycle coarsened at edge.
  ghost predicate Coarsened(l: seq<Cycle>, r: seq<Cycle>, edge: int) {
    && |l| == |r|
    && (forall i :: 0 <= i < |r| ==> r[i].samples != [] && l[i] == Blur(r[i], edge))
    && (r != [] ==> edge <= Last(Last(r).samples).at)
  }

  // Two cycles lists that any coarsening from edge on leaves equal.
  ghost predicate Alike(l: seq<Cycle>, r: seq<Cycle>, edge: int) {
    && |l| == |r|
    && (forall i :: 0 <= i < |r| ==> Blur(l[i], edge) == Blur(r[i], edge))
  }

  lemma AbsorbCommutes(c: Cycle, s: Sample, estimated: bool, e1: int, e2: int)
    requires c.samples != [] && e1 <= Last(c.samples).at && e1 <= e2
    ensures Absorb(Blur(c, e1), s, estimated).1 == Absorb(c, s, estimated).1
    ensures Blur(Absorb(Blur(c, e1), s, estimated).0, e2) == Blur(Absorb(c, s, estimated).0, e2)
  {
    hide Coarsen, SameStep;
    var p, last, d := Front(c.samples), Last(c.samples), Blur(c, e1);
    CoarsenLast(c.samples, e1);
    assert d.samples == Coarsen(p, e1) + [last];
    assert Front(d.samples) == Coarsen(p, e1);
    assert p != [] ==> Last(p) == c.samples[|c.samples| - 2] && Last(Coarsen(p, e1)) == d.samples[|d.samples| - 2];
    if s.at > last.at && s.util >= last.util {
      if c.estimated && !estimated {
        CoarsenAbsorbs(c.samples, [s], e1, e2);
      } else if s.at - last.at < FINE_STEP {
        CoarsenAbsorbs(p, [s], e1, e2);
      } else if p != [] && last.util == s.util && Last(p).util == s.util {
        CoarsenAbsorbs(p, [Sample(s.at, last.util)], e1, e2);
      } else {
        CoarsenAbsorbs(c.samples, [s], e1, e2);
      }
    } else {
      CoarsenAbsorbs(c.samples, [], e1, e2);
      assert c.samples + [] == c.samples && d.samples + [] == d.samples;
    }
  }

  // Compaction moves a cycle's first sample only once its roll is long past.
  lemma NearRollCommutes(l: seq<Cycle>, r: seq<Cycle>, at: int, edge: int)
    requires Coarsened(l, r, edge) && edge + FINE_SPAN <= at
    ensures Filled(l) && Filled(r) && NearRoll(l, at) == NearRoll(r, at)
  {
  }

  lemma CarriedOverCommutes(l: seq<Cycle>, r: seq<Cycle>, s: Sample, edge: int)
    requires Coarsened(l, r, edge) && edge + FINE_SPAN <= s.at
    ensures Filled(l) && Filled(r) && CarriedOver(l, s) == CarriedOver(r, s)
  {
    NearRollCommutes(l, r, s.at, edge);
    assert forall i :: 0 <= i < |r| ==> Last(l[i].samples) == Last(r[i].samples);
  }

  lemma AlikeBlur(l: seq<Cycle>, r: seq<Cycle>, e1: int, e2: int)
    requires Coarsened(l, r, e1) && e1 <= e2
    ensures Alike(l, r, e2)
  {
    forall i | 0 <= i < |r|
      ensures Blur(l[i], e2) == Blur(r[i], e2)
    {
      CoarsenAbsorbs(r[i].samples, [], e1, e2);
      assert r[i].samples + [] == r[i].samples && l[i].samples + [] == l[i].samples;
    }
  }

  lemma ExtendCommutes(l: seq<Cycle>, r: seq<Cycle>, s: Sample, resetsAt: Option<int>, estimated: bool, e1: int, e2: int)
    requires Coarsened(l, r, e1) && r != [] && e1 + FINE_SPAN <= s.at && e1 <= e2
    ensures Filled(l) && Filled(r)
    ensures Extend(l, s, resetsAt, estimated, false).1 == Extend(r, s, resetsAt, estimated, false).1
    ensures Alike(Extend(l, s, resetsAt, estimated, false).0, Extend(r, s, resetsAt, estimated, false).0, e2)
    ensures !Extend(r, s, resetsAt, estimated, false).1 ==>
              Coarsened(Extend(l, s, resetsAt, estimated, false).0, Extend(r, s, resetsAt, estimated, false).0, e1)
  {
    hide Absorb, Coarsen, SameStep, Alike, Coarsened, CarriedOver;
    CoarsenedFilled(l, r, e1);
    var c, d := Named(Last(r), resetsAt), Named(Last(l), resetsAt);
    var nl, nr := Front(l) + [d], Front(r) + [c];
    NamedCommutes(l, r, resetsAt, e1);
    CoarsenedFilled(nl, nr, e1);
    CarriedOverCommutes(nl, nr, s, e1);
    AlikeBlur(nl, nr, e1, e2);
    var x := Settle(c, s, estimated);
    AbsorbCommutes(c, x, estimated, e1, e2);
    AbsorbUntaken(c, x, estimated);
    AbsorbUntaken(d, x, estimated);
    AlikeLast(nl, nr, Absorb(d, x, estimated).0, Absorb(c, x, estimated).0, e2);
    assert Front(nl) == Front(l) && Front(nr) == Front(r);
  }

  lemma NamedCommutes(l: seq<Cycle>, r: seq<Cycle>, resetsAt: Option<int>, edge: int)
    requires Coarsened(l, r, edge) && r != [] && l != []
    ensures var c, d := Named(Last(r), resetsAt), Named(Last(l), resetsAt);
            d == Blur(c, edge) && edge <= Last(c.samples).at && Coarsened(Front(l) + [d], Front(r) + [c], edge)
  {
    hide Coarsen;
  }

  lemma AlikeLast(l: seq<Cycle>, r: seq<Cycle>, d: Cycle, c: Cycle, edge: int)
    requires r != [] && Alike(l, r, edge) && Blur(d, edge) == Blur(c, edge)
    ensures Alike(Front(l) + [d], Front(r) + [c], edge)
  {
  }

  lemma AbsorbUntaken(c: Cycle, s: Sample, estimated: bool)
    requires c.samples != []
    ensures !Absorb(c, s, estimated).1 ==> Absorb(c, s, estimated).0 == c
  {
  }

  lemma CoarsenedFilled(l: seq<Cycle>, r: seq<Cycle>, edge: int)
    requires Coarsened(l, r, edge)
    ensures |l| == |r| && Filled(l) && Filled(r)
    ensures r != [] ==> Last(l) == Blur(Last(r), edge) && Last(Last(l).samples) == Last(Last(r).samples)
  {
  }

  lemma CoarsenedFallen(l: seq<Cycle>, r: seq<Cycle>, c: Cycle, edge: int)
    requires Coarsened(l, r, edge) && |c.samples| == 1 && edge <= c.samples[0].at
    ensures Coarsened(l + [c], r + [c], edge)
  {
  }

  lemma AddCommutes(l: Track, r: Track, s: Sample, resetsAt: Option<int>, estimated: bool, e1: int, e2: int)
    requires Coarsened(l.cycles, r.cycles, e1) && l.fall == r.fall && e1 <= e2
    requires r.cycles != [] ==> e1 + FINE_SPAN <= s.at
    requires r.fall.Some? ==> r.cycles != [] && e1 <= r.fall.value.sample.at
    ensures Filled(l.cycles) && Filled(r.cycles)
    ensures var sl, sr := AddSample(l, s, resetsAt, estimated, false), AddSample(r, s, resetsAt, estimated, false);
            && sl.changed == sr.changed && sl.track.fall == sr.track.fall && sl.ends == sr.ends
            && Alike(sl.track.cycles, sr.track.cycles, e2)
            && (!sr.changed ==> Coarsened(sl.track.cycles, sr.track.cycles, e1))
  {
    hide Extend, Alike, Coarsened, Coarsen, SameStep;
    CoarsenedFilled(l.cycles, r.cycles, e1);
    AlikeBlur(l.cycles, r.cycles, e1, e2);
    var first := Cycle(resetsAt, [s], estimated, None);
    AlikeOpened(l.cycles, r.cycles, first, e1, e2);
    AlikeOpened(l.cycles, r.cycles, Cycle(resetsAt, [s], false, None), e1, e2);
    if r.cycles != [] {
      ExtendCommutes(l.cycles, r.cycles, s, resetsAt, estimated, e1, e2);
      if r.fall.Some? {
        var f := r.fall.value;
        var fallen := Cycle(f.resetsAt, [f.sample], false, None);
        CoarsenedFallen(l.cycles, r.cycles, fallen, e1);
        ExtendCommutes(l.cycles + [fallen], r.cycles + [fallen], s, resetsAt, estimated, e1, e2);
        FallConfirms(r, s, resetsAt);
      }
    }
  }

  // A reading that confirms a fall always joins the cycle the fall opens.
  lemma FallConfirms(t: Track, s: Sample, resetsAt: Option<int>)
    requires Filled(t.cycles) && t.cycles != [] && t.fall.Some?
    ensures var f := t.fall.value;
            FallsUnder(Last(t.cycles), s, false) && s.at > f.sample.at ==>
              var (cs, taken) := Extend(t.cycles + [Cycle(f.resetsAt, [f.sample], false, None)], s, resetsAt, false, false);
              taken && Last(Last(cs).samples).at == s.at
  {
  }

  lemma AlikeOpened(l: seq<Cycle>, r: seq<Cycle>, c: Cycle, e1: int, e2: int)
    requires Coarsened(l, r, e1) && e1 <= e2
    ensures Alike(l + [c], r + [c], e2)
  {
    AlikeBlur(l, r, e1, e2);
  }

  // ----- runs of readings

  type Readings = seq<(Reading, bool)>

  function AddAll(xs: Readings): (t: Track)
    ensures Filled(t.cycles)
  {
    if xs == [] then EMPTY_TRACK else Add(AddAll(Front(xs)), Last(xs).0, Last(xs).1).track
  }

  function PutAll(xs: Readings): (t: Track)
    ensures Filled(t.cycles)
  {
    if xs == [] then EMPTY_TRACK
    else PutTrack(PutAll(Front(xs)), Last(xs).0, Last(xs).1)
  }

  ghost predicate InOrder(xs: Readings) {
    forall i, j :: 0 <= i < j < |xs| && xs[i].0.at.Some? && xs[j].0.at.Some? ==> xs[i].0.at.value <= xs[j].0.at.value
  }

  // Nothing in the track is newer than m.
  ghost predicate UpTo(t: Track, m: int) {
    && (t.cycles != [] ==> Last(t.cycles).samples != [] && Last(Last(t.cycles).samples).at <= m)
    && (t.fall.Some? ==> t.fall.value.sample.at <= m)
  }

  lemma ExtendUpTo(cs: seq<Cycle>, s: Sample, resetsAt: Option<int>, estimated: bool)
    requires cs != [] && Filled(cs) && Last(Last(cs).samples).at <= s.at
    ensures var cs' := Extend(cs, s, resetsAt, estimated, false).0;
            Last(Last(cs).samples).at <= Last(Last(cs').samples).at <= s.at
  {
  }

  // The cycles and the fall a reading can leave.
  lemma AddSampleShapes(t: Track, s: Sample, resetsAt: Option<int>, estimated: bool)
    requires Filled(t.cycles)
    ensures var t', cs := AddSample(t, s, resetsAt, estimated, false).track, t.cycles;
            && (|| t'.cycles == cs
                || t'.cycles == cs + [Cycle(resetsAt, [s], estimated, None)] || t'.cycles == cs + [Cycle(resetsAt, [s], false, None)]
                || (cs != [] && t'.cycles == Extend(cs, s, resetsAt, estimated, false).0)
                || (&& cs != [] && t.fall.Some? && FallsUnder(Last(cs), s, false) && t.fall.value.sample.at < s.at && !estimated
                    && t'.cycles == Extend(cs + [Cycle(t.fall.value.resetsAt, [t.fall.value.sample], false, None)], s, resetsAt, false, false).0))
            && (t'.fall.None? || t'.fall == t.fall || t'.fall == Some(Fall(s, resetsAt)))
  {
    hide Extend, EndedBefore, Rolled, Closed, FallsUnder;
    if t.cycles != [] {
      FallsObserved(Last(t.cycles), s, estimated);
    }
  }

  lemma AddUpTo(t: Track, s: Sample, resetsAt: Option<int>, estimated: bool)
    requires Filled(t.cycles) && UpTo(t, s.at)
    ensures UpTo(AddSample(t, s, resetsAt, estimated, false).track, s.at)
    ensures t.cycles != [] ==> AddSample(t, s, resetsAt, estimated, false).track.cycles != []
                               && Edge(t.cycles) <= Edge(AddSample(t, s, resetsAt, estimated, false).track.cycles)
  {
    hide Extend, AddSample, FallsUnder;
    AddSampleShapes(t, s, resetsAt, estimated);
    if t.cycles != [] {
      ExtendUpTo(t.cycles, s, resetsAt, estimated);
      if t.fall.Some? {
        var f := t.fall.value;
        ExtendUpTo(t.cycles + [Cycle(f.resetsAt, [f.sample], false, None)], s, resetsAt, estimated);
        FallConfirms(t, s, resetsAt);
      }
    }
  }

  lemma TieredBlurs(cs: seq<Cycle>)
    requires CyclesOk(cs)
    ensures Filled(cs) && (cs != [] ==> Coarsened(Tiered(cs), cs, Edge(cs)))
  {
    forall i | 0 <= i < |cs|
      ensures cs != [] ==> Tiered(cs)[i] == Blur(cs[i], Edge(cs))
    {
      CoarsenCycleBlurs(cs[i], Edge(cs));
    }
  }

  lemma TieredAlike(l: seq<Cycle>, r: seq<Cycle>)
    requires CyclesOk(l) && CyclesOk(r) && r != [] && Alike(l, r, Edge(r))
    ensures Tiered(l) == Tiered(r)
  {
    hide Coarsen, CycleOk, CoarsenCycle;
    FilledOk(l);
    FilledOk(r);
    var edge := Edge(r);
    assert Blur(Last(l), edge) == Blur(Last(r), edge);
    assert Edge(l) == edge;
    forall i | 0 <= i < |r|
      ensures Tiered(l)[i] == Tiered(r)[i]
    {
      CoarsenCycleBlurs(l[i], edge);
      CoarsenCycleBlurs(r[i], edge);
      assert Blur(l[i], edge) == Blur(r[i], edge);
    }
  }

  lemma FilledOk(cs: seq<Cycle>)
    requires CyclesOk(cs)
    ensures Filled(cs)
  {
  }

  // One reading: a live ring that is its raw twin coarsened stays so.
  lemma PutTracksAdd(l: Track, r: Track, x: Reading, estimated: bool)
    requires TrackOk(l) && TrackOk(r) && l == r.(cycles := Tiered(r.cycles))
    requires x.at.Some? ==> UpTo(r, Truncate(x.at.value))
    requires Total(Tiered(Add(r, x, estimated).track.cycles)) <= MAX_SAMPLES
    ensures PutTrack(l, x, estimated) ==
            Add(r, x, estimated).track.(cycles := Tiered(Add(r, x, estimated).track.cycles))
  {
    hide TrackOk, Alike, Coarsened, AddSample, CyclesOk;
    var r' := Add(r, x, estimated).track;
    if x.at.Some? && x.util.Some? {
      var s := Sample(Truncate(x.at.value), x.util.value);
      var e1 := if r.cycles == [] then s.at - FINE_SPAN else Edge(r.cycles);
      LiveTwin(l, r);
      AddUpTo(r, s, x.resetsAt, estimated);
      AddOk(l, x, estimated);
      AddOk(r, x, estimated);
      TrackParts(r');
      TrackParts(Add(l, x, estimated).track);
      var e2 := if r'.cycles == [] then e1 else Edge(r'.cycles);
      AddCommutes(l, r, s, x.resetsAt, estimated, e1, if e1 <= e2 then e2 else e1);
      if Add(r, x, estimated).changed {
        assert e1 <= e2 by { EdgeGrows(r, s, x.resetsAt, estimated); }
        TieredAlike(Add(l, x, estimated).track.cycles, r'.cycles);
      } else {
        UnchangedEdge(r, s, x.resetsAt, estimated);
        TieredUnchanged(Add(l, x, estimated).track.cycles, r'.cycles, e1);
      }
    }
  }

  lemma TrackParts(t: Track)
    requires TrackOk(t)
    ensures CyclesOk(t.cycles)
  {
  }

  lemma LiveTwin(l: Track, r: Track)
    requires TrackOk(r) && l == r.(cycles := Tiered(r.cycles))
    ensures r.cycles == [] ==> forall e :: Coarsened(l.cycles, r.cycles, e)
    ensures r.cycles != [] ==> Coarsened(l.cycles, r.cycles, Edge(r.cycles))
    ensures r.fall.Some? ==> r.cycles != [] && Edge(r.cycles) <= r.fall.value.sample.at
  {
    TieredBlurs(r.cycles);
  }

  lemma EdgeGrows(r: Track, s: Sample, resetsAt: Option<int>, estimated: bool)
    requires Filled(r.cycles) && UpTo(r, s.at) && AddSample(r, s, resetsAt, estimated, false).changed
    ensures r.cycles == [] ==> s.at - FINE_SPAN <= Edge(AddSample(r, s, resetsAt, estimated, false).track.cycles)
  {
  }

  lemma UnchangedEdge(r: Track, s: Sample, resetsAt: Option<int>, estimated: bool)
    requires Filled(r.cycles) && !AddSample(r, s, resetsAt, estimated, false).changed
    ensures var cs := AddSample(r, s, resetsAt, estimated, false).track.cycles;
            (cs == [] <==> r.cycles == []) && (cs != [] ==> Edge(cs) == Edge(r.cycles))
  {
    hide Extend;
    if r.cycles != [] {
      ExtendUntaken(r.cycles, s, resetsAt, estimated);
      if r.fall.Some? {
        FallConfirms(r, s, resetsAt);
      }
    }
  }

  lemma ExtendUntaken(cs: seq<Cycle>, s: Sample, resetsAt: Option<int>, estimated: bool)
    requires cs != [] && Filled(cs)
    ensures var (cs', taken) := Extend(cs, s, resetsAt, estimated, false);
            !taken ==> Last(cs').samples == Last(cs).samples
  {
  }

  lemma TieredUnchanged(l: seq<Cycle>, r: seq<Cycle>, edge: int)
    requires CyclesOk(r) && Coarsened(l, r, edge) && (r != [] ==> edge == Edge(r))
    ensures l == Tiered(r)
  {
    TieredBlurs(r);
  }

  lemma UpToLater(t: Track, m: int, n: int)
    requires UpTo(t, Truncate(m)) && m <= n
    ensures UpTo(t, Truncate(n))
  {
  }

  lemma {:induction false} AddAllOk(xs: Readings, m: int)
    requires InOrder(xs)
    requires forall i :: 0 <= i < |xs| && xs[i].0.at.Some? ==> xs[i].0.at.value <= m
    ensures TrackOk(AddAll(xs)) && UpTo(AddAll(xs), Truncate(m))
  {
    hide TrackOk, UpTo, Add, Truncate;
    if xs != [] {
      var x, prefix := Last(xs).0, Front(xs);
      assert Last(xs) == xs[|xs| - 1];
      AddAllOk(prefix, m);
      AddOk(AddAll(prefix), x, Last(xs).1);
      if x.at.Some? {
        AddAllOk(prefix, x.at.value);
        AddReadingUpTo(AddAll(prefix), x, Last(xs).1);
        UpToLater(AddAll(xs), x.at.value, m);
      } else {
        AddNothing(AddAll(prefix), x, Last(xs).1);
      }
    } else {
      EmptyOk(Truncate(m));
    }
  }

  lemma EmptyOk(m: int)
    ensures TrackOk(EMPTY_TRACK) && UpTo(EMPTY_TRACK, m) && Tiered(EMPTY_TRACK.cycles) == []
  {
  }

  lemma AddNothing(t: Track, x: Reading, estimated: bool)
    requires Filled(t.cycles) && x.at.None?
    ensures Add(t, x, estimated).track == t
  {
  }

  lemma AddReadingUpTo(t: Track, x: Reading, estimated: bool)
    requires Filled(t.cycles) && x.at.Some? && UpTo(t, Truncate(x.at.value))
    ensures UpTo(Add(t, x, estimated).track, Truncate(x.at.value))
  {
    if x.util.Some? {
      AddUpTo(t, Sample(Truncate(x.at.value), x.util.value), x.resetsAt, estimated);
    }
  }

  // No reading leaves more samples than the cap once the coarse tier is
  // applied, so nothing is evicted on the way.
  ghost predicate WithinCap(xs: Readings) {
    forall n :: 0 <= n <= |xs| ==> Total(Tiered(AddAll(xs[..n]).cycles)) <= MAX_SAMPLES
  }

  // Compacting after every reading leaves what recording them all and
  // compacting once does.
  lemma {:induction false} CompactionCommutes(xs: Readings)
    requires InOrder(xs) && WithinCap(xs)
    ensures PutAll(xs) == AddAll(xs).(cycles := Compact(AddAll(xs).cycles))
  {
    hide Add, TrackOk, UpTo, Tiered, PutTrack, Truncate;
    assert xs[..|xs|] == xs;
    if xs != [] {
      var prefix, x := Front(xs), Last(xs).0;
      assert forall n :: 0 <= n <= |prefix| ==> prefix[..n] == xs[..n];
      CompactionCommutes(prefix);
      var bound := Latest(xs);
      AddAllOk(prefix, bound);
      if x.at.Some? {
        AddAllOk(prefix, x.at.value);
      }
      PutAllOk(prefix);
      assert PutAll(prefix) == AddAll(prefix).(cycles := Tiered(AddAll(prefix).cycles));
      PutTracksAdd(PutAll(prefix), AddAll(prefix), x, Last(xs).1);
    } else {
      EmptyOk(0);
    }
  }

  lemma {:induction false} PutAllOk(xs: Readings)
    ensures TrackOk(PutAll(xs))
  {
    if xs != [] {
      PutAllOk(Front(xs));
      PutTrackOk(PutAll(Front(xs)), Last(xs).0, Last(xs).1);
    }
  }

  // An instant no reading is after.
  ghost function Latest(xs: Readings): (m: int)
    ensures forall i :: 0 <= i < |xs| && xs[i].0.at.Some? ==> xs[i].0.at.value <= m
  {
    if xs == [] then 0
    else
      var m := Latest(Front(xs));
      assert forall i :: 0 <= i < |xs| - 1 ==> xs[i] == Front(xs)[i];
      if Last(xs).0.at.Some? then Max(m, Last(xs).0.at.value) else m
  }

  // Which samples the tiers of a sound ring hold: all of the last day, and of
  // each ten minutes before it the last.
  lemma TieredExact(cs: seq<Cycle>, k: nat, i: nat)
    requires CyclesOk(cs) && Filled(cs) && k < |cs| && i < |cs[k].samples|
    ensures var s, edge := cs[k].samples, Last(Last(cs).samples).at - 24 * HOUR;
            && Tiered(cs)[k] == cs[k].(samples := Tiered(cs)[k].samples)
            && (s[i] in Tiered(cs)[k].samples <==>
                edge <= s[i].at || forall j :: i < j < |s| && s[j].at < edge ==> s[j].at / (10 * MINUTE) != s[i].at / (10 * MINUTE))
  {
    hide Coarsen, CoarsenAll, CoarsenCycle;
    assert CycleOk(cs[k]);
    CoarsenCycleBlurs(cs[k], Edge(cs));
    CoarsenExact(cs[k].samples, Edge(cs), i);
  }

  // ----- eviction

  function Flatten(cs: seq<Cycle>): (s: seq<Sample>)
    ensures |s| == Total(cs)
  {
    if cs == [] then [] else cs[0].samples + Flatten(cs[1..])
  }

  lemma {:induction false} EvictDropsOldest(cs: seq<Cycle>, drop: nat)
    requires drop <= Total(cs)
    ensures Flatten(Evict(cs, drop)) == Flatten(cs)[drop..]
  {
    if drop > 0 {
      var c := cs[0];
      if |c.samples| <= drop {
        EvictDropsOldest(cs[1..], drop - |c.samples|);
      } else {
        var out := Evict(cs, drop);
        assert out[1..] == cs[1..] && out[0].samples == c.samples[drop..];
      }
    }
  }

  // What eviction leaves is the newest cycles unchanged behind the newest
  // samples of one cycle.
  lemma {:induction false} EvictKeepsCycles(cs: seq<Cycle>, drop: nat)
    requires drop <= Total(cs)
    ensures var out := Evict(cs, drop);
            |out| <= |cs| && (out != [] ==>
              var k := |cs| - |out|;
              && out[1..] == cs[k + 1..]
              && exists n :: 0 <= n <= |cs[k].samples|
                    && out[0].samples == cs[k].samples[n..]
                    && out[0].resetsAt == cs[k].resetsAt && out[0].estimated == cs[k].estimated
                    && (n == 0 ==> out[0].until == cs[k].until)
                    && (n > 0 ==> out[0].samples != []
                                  && out[0].until == if cs[k].until.Some? && cs[k].until.value < out[0].samples[0].at
                                                     then None else cs[k].until))
  {
    if drop > 0 && |cs[0].samples| <= drop {
      EvictKeepsCycles(cs[1..], drop - |cs[0].samples|);
    } else if drop == 0 && cs != [] {
      assert cs[0].samples == cs[0].samples[0..];
    }
  }

  // compact leaves exactly the newest samples of the tiered ring that fit the
  // cap, and no empty cycle.
  lemma CompactKeepsNewest(cs: seq<Cycle>)
    requires Filled(cs)
    ensures var all := Flatten(Tiered(cs));
            Flatten(Compact(cs)) == all[|all| - Min(|all|, MAX_SAMPLES)..]
    ensures Filled(Compact(cs)) && Total(Compact(cs)) == Min(Total(Tiered(cs)), MAX_SAMPLES)
    ensures cs != [] ==> Compact(cs) != []
  {
    hide CoarsenAll, Evict, Flatten;
    var tiered := Tiered(cs);
    var drop := Max(0, Total(tiered) - MAX_SAMPLES);
    EvictDropsOldest(tiered, drop);
    FilledEvict(tiered, drop);
    if cs != [] {
      assert |tiered[0].samples| > 0 && Total(tiered) > 0;
    }
  }

  // ----- how many samples one cycle can hold

  // Readings a minute apart: the span bounds the count, one pair aside.
  lemma {:induction false} SpacedSpan(s: seq<Sample>, until: Option<int>)
    requires s != [] && Ordered(s) && Spaced(s, until)
    ensures Last(s).at - s[0].at >= (|s| - 2) * FINE_STEP
    ensures until.None? || Last(s).at <= until.value || until.value < s[0].at ==>
              Last(s).at - s[0].at >= (|s| - 1) * FINE_STEP
  {
    if |s| >= 2 {
      var p := Front(s);
      SpacedSpan(p, until);
      assert p[0] == s[0] && Last(p) == s[|s| - 2];
      assert s[|s| - 2].at < s[|s| - 1].at;
    }
  }

  // Coarsening leaves one sample in each bucket before the edge.
  lemma {:induction false} CoarsenDistinct(s: seq<Sample>, edge: int, i: nat, j: nat)
    requires Ordered(s) && i < j < |Coarsen(s, edge)| && Coarsen(s, edge)[j].at < edge
    ensures Coarsen(s, edge)[i].at / COARSE_STEP < Coarsen(s, edge)[j].at / COARSE_STEP
  {
    var out, rest := Coarsen(s, edge), Coarsen(s[1..], edge);
    if Superseded(s[0], s[1], edge) {
      CoarsenDistinct(s[1..], edge, i, j);
    } else if i > 0 {
      CoarsenDistinct(s[1..], edge, i - 1, j - 1);
    } else {
      var idx := CoarsenPicks(s[1..], edge);
      assert out[j] == s[1..][idx[j - 1]];
      assert s[1].at <= out[j].at && s[0].at < s[1].at;
      StepsGrow(s[0].at, s[1].at, out[j].at);
    }
  }

  lemma StepsGrow(a: int, b: int, c: int)
    requires a < b <= c && a / COARSE_STEP != b / COARSE_STEP
    ensures a / COARSE_STEP < c / COARSE_STEP
  {
  }

  // n samples before the edge, one a bucket, reach back at least n - 1 buckets.
  lemma {:induction false} CoarseSpan(s: seq<Sample>, edge: int, n: nat)
    requires Ordered(s) && 0 < n <= |Coarsen(s, edge)|
    requires Coarsen(s, edge)[n - 1].at < edge
    ensures Coarsen(s, edge)[n - 1].at / COARSE_STEP - Coarsen(s, edge)[0].at / COARSE_STEP >= n - 1
  {
    if n > 1 {
      var idx := CoarsenPicks(s, edge);
      assert Coarsen(s, edge)[n - 2].at < Coarsen(s, edge)[n - 1].at;
      CoarseSpan(s, edge, n - 1);
      CoarsenDistinct(s, edge, n - 2, n - 1);
    }
  }

  // The index of the first sample from edge on.
  ghost function FirstFine(s: seq<Sample>, edge: int): (n: nat)
    requires Ordered(s)
    ensures n <= |s|
    ensures forall i :: 0 <= i < n ==> s[i].at < edge
    ensures forall i :: n <= i < |s| ==> edge <= s[i].at
  {
    if s == [] || edge <= s[0].at then 0 else 1 + FirstFine(s[1..], edge)
  }

  const NINE_DAYS := 9 * DAY
  const MOST_FINE := 1442
  const MOST_COARSE := 1153

  lemma StepsInEightDays(oldest: int, last: int, edge: int)
    requires edge - 8 * DAY <= oldest && last < edge
    ensures last / COARSE_STEP - oldest / COARSE_STEP < MOST_COARSE
  {
  }

  lemma CoarseCount(s: seq<Sample>, edge: int, n: nat)
    requires s != [] && Ordered(s) && edge - 8 * DAY <= s[0].at
    requires n <= |Coarsen(s, edge)| && (n > 0 ==> Coarsen(s, edge)[n - 1].at < edge)
    ensures n <= MOST_COARSE
  {
    hide Coarsen, SameStep;
    if n > 0 {
      var out := Coarsen(s, edge);
      CoarseSpan(s, edge, n);
      var idx := CoarsenPicks(s, edge);
      assert idx[0] > 0 ==> s[0].at < s[idx[0]].at;
      StepsInEightDays(out[0].at, out[n - 1].at, edge);
    }
  }

  // A cycle spanning at most nine days coarsens to 2,595 samples: a day and a
  // minute of fine ones, the pair at an estimate's end, and one for each
  // ten minutes the eight days before can touch.
  lemma NineDaysCount(c: Cycle)
    requires CycleOk(c) && Last(c.samples).at - c.samples[0].at <= NINE_DAYS
    ensures |Coarsen(c.samples, Last(c.samples).at - FINE_SPAN)| <= MOST_FINE + MOST_COARSE
  {
    hide Coarsen, SameStep, Whole, Folded, Spaced;
    var s, edge := c.samples, Last(c.samples).at - FINE_SPAN;
    var out := Coarsen(s, edge);
    var idx := CoarsenPicks(s, edge);
    RisingPicked(s, out, idx, c.until);
    var n := FirstFine(out, edge);
    var fine := out[n..];
    assert Last(fine) == Last(out);
    SpacedSuffix(out, n, c.until);
    FineCount(fine, c.until);
    CoarseCount(s, edge, n);
  }

  lemma SpacedSuffix(s: seq<Sample>, n: nat, until: Option<int>)
    requires n <= |s| && Ordered(s) && Spaced(s, until)
    ensures Ordered(s[n..]) && Spaced(s[n..], until)
  {
  }

  lemma FineCount(s: seq<Sample>, until: Option<int>)
    requires s != [] && Ordered(s) && Spaced(s, until) && Last(s).at - s[0].at <= FINE_SPAN
    ensures |s| <= MOST_FINE
  {
    SpacedSpan(s, until);
  }

  // A single cycle spanning at most nine days is never evicted from.
  lemma NineDaysFit(c: Cycle)
    requires CycleOk(c) && Last(c.samples).at - c.samples[0].at <= NINE_DAYS
    ensures Filled([c]) && Compact([c]) == Tiered([c])
  {
    NineDaysCount(c);
    CoarsenCycleBlurs(c, Edge([c]));
    assert Tiered([c]) == [Blur(c, Edge([c]))];
    assert Total(Tiered([c])) == |Blur(c, Edge([c])).samples|;
  }

  // ----- a change add does not report

  lemma Untaken(c: Cycle, s: Sample, estimated: bool)
    requires c.samples != []
    ensures var last := Last(c.samples);
            !Absorb(c, Settle(c, s, estimated), estimated).1 <==>
            s.at <= last.at || (s.util < last.util && (estimated || SampleEstimated(c, last)))
  {
  }

  lemma NamedExtend(cs: seq<Cycle>, s: Sample, resetsAt: Option<int>, estimated: bool)
    requires cs != [] && Filled(cs)
    ensures var (cs', taken) := Extend(cs, s, resetsAt, estimated, false);
            var c := Named(Last(cs), resetsAt);
            && (!taken ==> cs' == Front(cs) + [c])
            && (!taken <==> (!estimated && CarriedOver(cs, s)) || !Absorb(c, Settle(c, s, estimated), estimated).1)
  {
    hide Absorb, Settle, CarriedOver;
    var c := Named(Last(cs), resetsAt);
    CarriedNamed(cs, c, s);
    AbsorbUntaken(c, Settle(c, s, estimated), estimated);
  }

  // Whether a reading is carried over does not depend on the newest reset.
  lemma CarriedNamed(cs: seq<Cycle>, c: Cycle, s: Sample)
    requires cs != [] && Filled(cs) && c == Last(cs).(resetsAt := c.resetsAt)
    ensures Filled(Front(cs) + [c]) && CarriedOver(Front(cs) + [c], s) == CarriedOver(cs, s)
  {
  }

  // A reading that add reports as no change leaves the cycles as they were,
  // but for a newest cycle with no reset, which takes the reset of a reading
  // that neither falls nor is recorded.
  lemma UnreportedChange(t: Track, s: Sample, resetsAt: Option<int>, estimated: bool)
    requires TrackOk(t)
    ensures var step, c := AddSample(t, s, resetsAt, estimated, false), if t.cycles == [] then Cycle(None, [], false, None) else Last(t.cycles);
            && (!step.changed && step.track.cycles != t.cycles <==>
                && t.cycles != [] && c.resetsAt.None? && resetsAt.Some? && !FallsUnder(c, s, estimated)
                && (|| s.at <= Last(c.samples).at
                    || (s.util < Last(c.samples).util && (estimated || SampleEstimated(c, Last(c.samples))))
                    || (!estimated && CarriedOver(t.cycles, s))))
            && (!step.changed && step.track.cycles != t.cycles ==> step.track.cycles == Front(t.cycles) + [Named(c, resetsAt)])
  {
    hide Extend, CarriedOver, FallsUnder, CycleOk;
    FilledOk(t.cycles);
    if t.cycles != [] {
      var c := Last(t.cycles);
      NamedExtend(t.cycles, s, resetsAt, estimated);
      Untaken(Named(c, resetsAt), s, estimated);
      assert t.cycles == Front(t.cycles) + [c];
      if t.fall.Some? {
        FallConfirms(t, s, resetsAt);
        FallsObserved(c, s, estimated);
      }
    }
  }

  lemma FallsObserved(c: Cycle, s: Sample, estimated: bool)
    ensures FallsUnder(c, s, estimated) ==> !estimated && FallsUnder(c, s, false) && c.samples != [] && Last(c.samples).at < s.at
  {
  }

  // It happens: a reading delivered out of order names the newest cycle's
  // reset and is reported as no change.
  lemma LateReadingNames(at: int, early: int, u: int, v: int, reset: int)
    requires early <= at
    ensures var t := Track([Cycle(None, [Sample(at, u)], false, None)], None);
            AddSample(t, Sample(early, v), Some(reset), false, false) ==
            Step(Track([Cycle(Some(reset), [Sample(at, u)], false, None)], None), false, None)
  {
    hide Extend, Absorb, Settle;
    var c, s, cs := Cycle(Some(reset), [Sample(at, u)], false, None), Sample(early, v), [Cycle(None, [Sample(at, u)], false, None)];
    NamedExtend(cs, s, Some(reset), false);
    Untaken(c, s, false);
    assert Front(cs) + [c] == [c];
  }
}
