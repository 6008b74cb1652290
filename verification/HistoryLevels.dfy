/** What a reading is recorded as: when it opens a cycle, when it is taken, the
    level and instant it leaves, and what it does to an ongoing refusal. */
module HistoryLevels {
  import opened Basics
  import opened History
  import opened HistoryInvariants
  import opened HistoryCompaction
  import opened HistoryFalls
  import opened HistoryReload

  predicate Usable(e: Entry) { e.x.at.Some? && e.x.util.Some? }

  // ----- when a reading opens a cycle, and when it is taken

  // The reading describes a window that ended before the newest cycle's.
  predicate Expired(c: Cycle, x: Reading)
    requires x.at.Some?
  {
    c.resetsAt.Some? && x.resetsAt.Some? && x.resetsAt.value + 2 * MINUTE < c.resetsAt.value && x.resetsAt.value <= Truncate(x.at.value)
  }

  // The reading is of another window than the newest cycle's: its reset is
  // more than two minutes off, or the cycle's is more than two minutes past
  // and nothing was recorded since.
  predicate NextWindow(c: Cycle, x: Reading)
    requires x.at.Some? && c.samples != []
  {
    c.resetsAt.Some? &&
    ((x.resetsAt.Some? && (x.resetsAt.value + 2 * MINUTE < c.resetsAt.value || c.resetsAt.value + 2 * MINUTE < x.resetsAt.value))
     || Last(c.samples).at <= c.resetsAt.value + 2 * MINUTE < Truncate(x.at.value))
  }

  // The reading jumps back to the previous window's level within ten minutes
  // of its reset, in a cycle that opened there.
  predicate JumpsBack(cs: seq<Cycle>, x: Reading)
    requires x.at.Some? && x.util.Some? && Filled(cs)
  {
    |cs| >= 2 && cs[|cs| - 2].resetsAt.Some? && !Last(cs).estimated &&
    var reset, level, last := cs[|cs| - 2].resetsAt.value, Last(cs[|cs| - 2].samples).util, Last(Last(cs).samples).util;
    && reset - 2 * MINUTE <= Last(cs).samples[0].at <= reset + 10 * MINUTE && Truncate(x.at.value) <= reset + 10 * MINUTE
    && last + 500 < x.util.value && level - 200 <= x.util.value <= level
  }

  // The reading is more than 500 under the newest sample, both observed.
  predicate Drops(c: Cycle, e: Entry)
    requires Usable(e) && c.samples != []
  {
    !e.estimated && !c.estimated && (c.until.None? || c.until.value < Last(c.samples).at)
    && Last(c.samples).at < Truncate(e.x.at.value) && e.x.util.value + 500 < Last(c.samples).util
  }

  // The newest window's second drop in a row, later than the first.
  predicate ConfirmsDrop(t: Track, e: Entry)
    requires Usable(e) && Filled(t.cycles)
  {
    && t.cycles != [] && Drops(Last(t.cycles), e) && !NextWindow(Last(t.cycles), e.x)
    && t.fall.Some? && t.fall.value.sample.at < Truncate(e.x.at.value)
  }

  predicate Estimates(c: Cycle, s: Sample) { c.estimated || (c.until.Some? && s.at <= c.until.value) }

  // A reading opens a cycle exactly when there is none, when it is of another
  // window that did not end before the newest cycle's, or when it confirms a
  // clearing.
  lemma OpensByWindow(t: Track, e: Entry)
    requires TrackOk(t) && Filled(t.cycles) && Usable(e)
    ensures var step, s := Add(t, e.x, e.estimated), Sample(Truncate(e.x.at.value), e.x.util.value);
            var opens := t.cycles == [] || (!Expired(Last(t.cycles), e.x) && NextWindow(Last(t.cycles), e.x));
            && (|step.track.cycles| > |t.cycles| <==> opens || ConfirmsDrop(t, e))
            && (opens ==> step.changed && step.track == Track(t.cycles + [Cycle(e.x.resetsAt, [s], e.estimated, None)], None))
  {
    hide Extend, CycleOk;
  }

  // A reading that opens no cycle and does not drop is taken exactly when it is
  // not of an ended window, is newer than the newest sample, is not an estimate
  // or over an estimate it falls under, and does not jump back.
  lemma TakenWhen(t: Track, e: Entry)
    requires TrackOk(t) && Filled(t.cycles) && Usable(e) && t.cycles != []
    requires !Drops(Last(t.cycles), e) && !NextWindow(Last(t.cycles), e.x)
    ensures var last := Last(Last(t.cycles).samples);
            Add(t, e.x, e.estimated).changed <==>
            && last.at < Truncate(e.x.at.value)
            && !(e.x.util.value < last.util && (e.estimated || Estimates(Last(t.cycles), last)))
            && (e.estimated || !JumpsBack(t.cycles, e.x))
  {
    hide Extend, CycleOk, Absorb, Settle;
    var c, s := Last(t.cycles), SampleOf(e);
    NamedExtend(t.cycles, s, e.x.resetsAt, e.estimated);
    Untaken(Named(c, e.x.resetsAt), s, e.estimated);
  }

  // ----- the level and instant a taken reading leaves

  // d is c with a reading taken: at its second, at its level or the level
  // before if that is higher. The samples before the last are as they were, and
  // the last stays too unless the reading is within a minute of it or ends a
  // flat run.
  ghost predicate TakenInto(c: Cycle, d: Cycle, at: int, util: int, estimated: bool)
    requires c.samples != []
  {
    var n, last, level := |c.samples|, Last(c.samples), Max(util, Last(c.samples).util);
    && d.samples != [] && Last(d.samples) == Sample(at, level) && last.at < at
    && n <= |d.samples| <= n + 1 && (forall k :: 0 <= k < n - 1 ==> d.samples[k] == c.samples[k])
    && (|d.samples| == n + 1 <==>
          || (c.estimated && !estimated)
          || (at - last.at >= MINUTE && !(n >= 2 && c.samples[n - 2].util == last.util == level)))
    && (|d.samples| == n + 1 ==> d.samples[n - 1] == last)
    && d.estimated == (c.estimated && estimated)
    && d.until == (if c.estimated && !estimated then Some(last.at) else c.until)
  }

  lemma SettlesAt(c: Cycle, s: Sample, estimated: bool)
    requires c.samples != []
    ensures var u := Settle(c, s, estimated);
            u.at == s.at && (u.util >= Last(c.samples).util ==> u.util == Max(s.util, Last(c.samples).util))
  {
  }

  lemma AbsorbInto(c: Cycle, s: Sample, estimated: bool)
    requires c.samples != [] && Absorb(c, s, estimated).1
    ensures s.util >= Last(c.samples).util && TakenInto(c, Absorb(c, s, estimated).0, s.at, s.util, estimated)
  {
  }

  lemma AbsorbTakes(c: Cycle, s: Sample, estimated: bool)
    requires c.samples != [] && Absorb(c, Settle(c, s, estimated), estimated).1
    ensures TakenInto(c, Absorb(c, Settle(c, s, estimated), estimated).0, s.at, s.util, estimated)
  {
    SettlesAt(c, s, estimated);
    var u := Settle(c, s, estimated);
    AbsorbInto(c, u, estimated);
  }

  lemma TakenNamed(c: Cycle, d: Cycle, resetsAt: Option<int>, at: int, util: int, estimated: bool)
    requires c.samples != [] && TakenInto(Named(c, resetsAt), d, at, util, estimated)
    ensures TakenInto(c, d, at, util, estimated)
  {
  }

  // A reading taken into the newest cycle touches no other, names the reset
  // that one had none of, and leaves its samples as TakenInto says.
  lemma TakenLevel(t: Track, x: Reading, estimated: bool, replaying: bool)
    requires TrackOk(t) && Filled(t.cycles)
    requires AddReading(t, x, estimated, replaying).changed
    requires |AddReading(t, x, estimated, replaying).track.cycles| == |t.cycles|
    ensures x.at.Some? && x.util.Some? && t.cycles != []
    ensures var ds := AddReading(t, x, estimated, replaying).track.cycles;
            var c, d := Last(t.cycles), Last(ds);
            && Front(ds) == Front(t.cycles) && TakenInto(c, d, Truncate(x.at.value), x.util.value, estimated)
            && d.resetsAt == (if c.resetsAt.Some? then c.resetsAt else x.resetsAt)
  {
    hide CycleOk, CarriedOver, Rolled, Closed, EndedBefore, FallsUnder, TakenInto, Absorb, Settle;
    var c, s := Named(Last(t.cycles), x.resetsAt), Sample(Truncate(x.at.value), x.util.value);
    var d := Absorb(c, Settle(c, s, estimated), estimated).0;
    AbsorbTakes(c, s, estimated);
    TakenNamed(Last(t.cycles), d, x.resetsAt, s.at, s.util, estimated);
  }

  // ----- over runs

  ghost function Level(t: Track): int
    requires Filled(t.cycles) && t.cycles != []
  {
    Last(Last(t.cycles).samples).util
  }

  ghost predicate OpensCycle(t: Track, e: Entry)
    requires Filled(t.cycles)
  {
    |Add(t, e.x, e.estimated).track.cycles| > |t.cycles|
  }

  ghost predicate Takes(t: Track, e: Entry)
    requires Filled(t.cycles)
  {
    Usable(e) && Add(t, e.x, e.estimated).changed
  }

  // The level a cycle opens at: the reading's, or the higher of the two falls
  // that open it together.
  ghost function OpeningLevel(t: Track, e: Entry): int
    requires Usable(e)
  {
    if Confirms(t, e) && t.fall.value.sample.util - e.x.util.value <= 500 then Max(t.fall.value.sample.util, e.x.util.value)
    else e.x.util.value
  }

  lemma OpenedLevel(t: Track, e: Entry)
    requires TrackOk(t) && Filled(t.cycles) && OpensCycle(t, e)
    ensures Usable(e) && Takes(t, e)
    ensures var t' := Add(t, e.x, e.estimated).track; t'.cycles != [] && Level(t') == OpeningLevel(t, e)
  {
    hide Extend, CycleOk, Rolled, Closed, EndedBefore;
    if Confirms(t, e) {
      ClearingConfirms(t, e);
      ConfirmChanges(t, e);
    } else {
      AddShapes(t, e);
    }
  }

  lemma StaysLevel(t: Track, e: Entry)
    requires TrackOk(t) && Filled(t.cycles) && t.cycles != [] && !OpensCycle(t, e)
    ensures var t' := Add(t, e.x, e.estimated).track;
            && t'.cycles != []
            && Level(t') == if Takes(t, e) then Max(e.x.util.value, Level(t)) else Level(t)
  {
    hide AddSample, CycleOk;
    AddKeepsAll(t, e);
    if Takes(t, e) {
      TakenLevel(t, e.x, e.estimated, false);
    } else if Usable(e) {
      UnreportedChange(t, SampleOf(e), e.x.resetsAt, e.estimated);
    }
  }

  lemma AddKeepsAll(t: Track, e: Entry)
    requires Filled(t.cycles)
    ensures |t.cycles| <= |Add(t, e.x, e.estimated).track.cycles|
  {
    hide Extend;
  }

  lemma PutLevel(t: Track, e: Entry)
    requires TrackOk(t) && Filled(t.cycles) && Add(t, e.x, e.estimated).track.cycles != []
    ensures var t' := PutTrack(t, e.x, e.estimated); t'.cycles != [] && Level(t') == Level(Add(t, e.x, e.estimated).track)
  {
    hide AddSample, Compact, CycleOk;
    AddOk(t, e.x, e.estimated);
    TrackParts(Add(t, e.x, e.estimated).track);
    CompactTwice(Add(t, e.x, e.estimated).track.cycles);
  }

  // In every run the newest level is the greatest of the level the newest cycle
  // opened at and the readings taken since.
  lemma {:induction false} LevelIsGreatest(ts: seq<Track>, es: seq<Entry>, n: nat) returns (o: nat)
    requires Tracks(ts, es) && n <= |es| && Filled(ts[n].cycles) && ts[n].cycles != []
    ensures o < n && Filled(ts[o].cycles) && OpensCycle(ts[o], es[o]) && Usable(es[o]) && OpeningLevel(ts[o], es[o]) <= Level(ts[n])
    ensures forall i :: o < i < n ==> Filled(ts[i].cycles) && !OpensCycle(ts[i], es[i])
    ensures forall i :: o < i < n && Filled(ts[i].cycles) && Takes(ts[i], es[i]) ==> es[i].x.util.value <= Level(ts[n])
    ensures Level(ts[n]) == OpeningLevel(ts[o], es[o])
            || exists i :: o < i < n && Filled(ts[i].cycles) && Takes(ts[i], es[i]) && es[i].x.util.value == Level(ts[n])
  {
    hide OpensCycle, Takes, OpeningLevel, Level, PutTrack, TrackOk;
    var t, e := ts[n - 1], es[n - 1];
    TracksOk(ts, es, n - 1);
    if OpensCycle(t, e) {
      o := n - 1;
      OpenedLevel(t, e);
      PutLevel(t, e);
    } else {
      NoneOpened(t, e);
      o := LevelIsGreatest(ts, es, n - 1);
      StaysLevel(t, e);
      PutLevel(t, e);
      TakesUsable(t, e);
      if Level(ts[n]) != Level(t) {
        assert Takes(t, e) && e.x.util.value == Level(ts[n]);
      }
    }
  }

  lemma TakesUsable(t: Track, e: Entry)
    requires Filled(t.cycles)
    ensures Takes(t, e) ==> Usable(e)
  {
  }

  // A ring with no cycle gains one only by opening it.
  lemma NoneOpened(t: Track, e: Entry)
    requires TrackOk(t) && Filled(t.cycles) && !OpensCycle(t, e) && PutTrack(t, e.x, e.estimated).cycles != []
    ensures t.cycles != []
  {
    hide Extend, CycleOk;
  }

  // ----- refusals at a roll, and late answers

  // A reading of another window ends an ongoing span that began before it: as
  // reset there, or by the reset the span expected when that had come first.
  lemma RollEndsSpan(r: Ring, e: Entry)
    requires TrackOk(r.track) && Filled(r.track.cycles) && Usable(e) && r.track.cycles != []
    requires !Expired(Last(r.track.cycles), e.x) && NextWindow(Last(r.track.cycles), e.x)
    requires r.spans.locks != [] && Last(r.spans.locks).end.Ongoing?
    ensures var l, at := Last(r.spans.locks), Truncate(e.x.at.value);
            var r' := Put(r, e.x, e.estimated);
            r'.spans.locks == TrimLocks(
              if at <= l.from then r.spans.locks
              else Front(r.spans.locks) + [if at < l.to then Lock(l.from, at, Reset, Some(l.to)) else l.(end := Reset)],
              Oldest(r'.track.cycles))
  {
    hide TrimLocks, Compact, Oldest, Extend, CycleOk;
    TruncateFacts(Truncate(e.x.at.value), e.x.at.value);
  }

  // A late answer of an ended window, by its instants and levels, records
  // nothing and ends no span.
  lemma LateByInstant(r: Ring, e: Entry)
    requires TrackOk(r.track) && Filled(r.track.cycles) && Usable(e) && r.track.cycles != [] && !e.estimated
    requires Expired(Last(r.track.cycles), e.x) || (!NextWindow(Last(r.track.cycles), e.x) && JumpsBack(r.track.cycles, e.x))
    ensures var r' := Put(r, e.x, false);
            r'.spans == r.spans && |r'.track.cycles| == |r.track.cycles|
            && forall i :: 0 <= i < |r.track.cycles| ==> r'.track.cycles[i].samples == r.track.cycles[i].samples
  {
    hide Compact, EndSpan, Absorb, Settle, TrimLocks, CycleOk;
  }
}
