/** Readings far under the level: one alone is stale and leaves no trace, two
    in a row are the provider clearing the window. */
module HistoryFalls {
  import opened Basics
  import opened History
  import opened HistoryInvariants

  datatype Entry = Entry(x: Reading, estimated: bool)

  function SampleOf(e: Entry): Sample
    requires e.x.at.Some? && e.x.util.Some?
  {
    Sample(Truncate(e.x.at.value), e.x.util.value)
  }

  // Dropped before the ring looks at its level.
  ghost predicate Ignored(cs: seq<Cycle>, e: Entry) {
    e.x.at.None? || e.x.util.None? ||
    (cs != [] && EndedBefore(Last(cs).resetsAt, e.x.resetsAt, SampleOf(e).at))
  }

  // Opens a cycle whatever its level: the first reading, a new reset, or a
  // reset passed.
  ghost predicate Turns(cs: seq<Cycle>, e: Entry)
    requires !Ignored(cs, e)
  {
    cs == [] || Rolled(Last(cs).resetsAt, e.x.resetsAt) || Closed(Last(cs), SampleOf(e).at)
  }

  // Observed, and more than CLEAR_DROP under the level of the open window.
  ghost predicate Falls(cs: seq<Cycle>, e: Entry) {
    !Ignored(cs, e) && !Turns(cs, e) && FallsUnder(Last(cs), SampleOf(e), e.estimated)
  }

  // A later fall behind a pending one.
  ghost predicate Confirms(t: Track, e: Entry) {
    Falls(t.cycles, e) && t.fall.Some? && t.fall.value.sample.at < SampleOf(e).at
  }

  function PutRun(r: Ring, es: seq<Entry>): Ring
    requires Filled(r.track.cycles)
    decreases |es|
  {
    if es == [] then r
    else PutRun(Put(r, es[0].x, es[0].estimated), es[1..])
  }

  // No fall is confirmed on the way, and none is pending at the end.
  ghost predicate Unconfirmed(r: Ring, es: seq<Entry>)
    requires Filled(r.track.cycles)
    decreases |es|
  {
    if es == [] then r.track.fall.None?
    else !Confirms(r.track, es[0]) && Unconfirmed(Put(r, es[0].x, es[0].estimated), es[1..])
  }

  // The readings that do not fall.
  ghost function Risers(r: Ring, es: seq<Entry>): seq<Entry>
    requires Filled(r.track.cycles)
    decreases |es|
  {
    if es == [] then []
    else
      (if Falls(r.track.cycles, es[0]) then [] else [es[0]]) + Risers(Put(r, es[0].x, es[0].estimated), es[1..])
  }

  function Calm(r: Ring): Ring { r.(track := r.track.(fall := None)) }

  // What one reading does, by its class.
  lemma PutByClass(r: Ring, e: Entry)
    requires TrackOk(r.track)
    ensures TrackOk(PutTrack(r.track, e.x, e.estimated))
    ensures Ignored(r.track.cycles, e) ==> Put(r, e.x, e.estimated) == r
    ensures Falls(r.track.cycles, e) && !Confirms(r.track, e) ==>
              Calm(Put(r, e.x, e.estimated)) == Calm(r)
              && Put(r, e.x, e.estimated).track.fall ==
                 (if r.track.fall.Some? then r.track.fall else Some(Fall(SampleOf(e), e.x.resetsAt)))
    ensures !Ignored(r.track.cycles, e) && !Falls(r.track.cycles, e) ==>
              Put(r, e.x, e.estimated) == Put(Calm(r), e.x, e.estimated)
              && Put(r, e.x, e.estimated).track.fall.None?
    ensures Confirms(r.track, e) ==> Put(r, e.x, e.estimated).track.fall.None?
  {
    hide Extend, Compact, EndSpan, TrimLocks, EndedBefore, Rolled, Closed, FallsUnder;
    PutTrackOk(r.track, e.x, e.estimated);
  }

  // Stale falls are invisible: the ring, spans and all, is the one the other
  // readings build alone.
  lemma {:induction false} StaleFallsInvisible(r: Ring, es: seq<Entry>)
    requires TrackOk(r.track) && Unconfirmed(r, es)
    ensures PutRun(r, es) == PutRun(Calm(r), Risers(r, es))
    decreases |es|
  {
    hide Put, Rising, Falls, Ignored, Confirms, PutTrack;
    if es != [] {
      var e, rest := es[0], es[1..];
      CalmOk(r);
      PutTrackOk(r.track, e.x, e.estimated);
      PutTracks(r, e);
      var r' := Put(r, e.x, e.estimated);
      PutByClass(r, e);
      PutByClass(Calm(r), e);
      StaleFallsInvisible(r', rest);
      FallsIgnored(r.track.cycles, e);
      if !Falls(r.track.cycles, e) {
        var kept := [e] + Risers(r', rest);
        assert kept[0] == e && kept[1..] == Risers(r', rest);
      } else {
        assert [] + Risers(r', rest) == Risers(r', rest);
      }
    }
  }

  lemma CalmOk(r: Ring)
    requires TrackOk(r.track)
    ensures TrackOk(Calm(r).track)
  {
  }

  lemma FallsIgnored(cs: seq<Cycle>, e: Entry)
    ensures Falls(cs, e) ==> !Ignored(cs, e)
  {
  }

  lemma PutTracks(r: Ring, e: Entry)
    requires TrackOk(r.track)
    ensures Put(r, e.x, e.estimated).track == PutTrack(r.track, e.x, e.estimated)
  {
  }

  // ----- clearings

  // A cycle opened under an unchanged, unexpired reset is opened by a fall
  // behind a pending one, at the lower of the two when they are more than
  // CLEAR_DROP apart and at the first otherwise.
  lemma ClearingConfirms(t: Track, e: Entry)
    requires TrackOk(t) && !Ignored(t.cycles, e) && !Turns(t.cycles, e)
    ensures var t' := Add(t, e.x, e.estimated).track;
            && (|t'.cycles| > |t.cycles| <==> Confirms(t, e))
            && (Confirms(t, e) ==>
                  var f, s, c := t.fall.value, SampleOf(e), Last(t'.cycles);
                  && Front(t'.cycles) == t.cycles && t'.fall.None?
                  && Last(t.cycles).samples != [] && Last(Last(t.cycles).samples).util - f.sample.util > CLEAR_DROP
                  && !c.estimated && Last(c.samples).at == s.at
                  && (if f.sample.util - s.util > CLEAR_DROP then c.samples == [s] && c.resetsAt == e.x.resetsAt
                      else Last(c.samples).util == Max(f.sample.util, s.util)
                           && c.resetsAt == Named(Cycle(f.resetsAt, [], false, None), e.x.resetsAt).resetsAt
                           && (s.at - f.sample.at >= FINE_STEP ==> c.samples[0] == f.sample)))
  {
  }

  // The clearing ends an ongoing span that began before the first fall: at
  // that fall, or by the reset the span expected when that had come first.
  lemma ClearingEndsSpan(r: Ring, e: Entry)
    requires TrackOk(r.track) && Confirms(r.track, e)
    requires r.spans.locks != [] && Last(r.spans.locks).end.Ongoing?
    ensures var l, fell := Last(r.spans.locks), r.track.fall.value.sample.at;
            var r' := Put(r, e.x, e.estimated);
            r'.spans.locks == TrimLocks(
              if fell <= l.from then r.spans.locks
              else Front(r.spans.locks) + [if fell < l.to then Lock(l.from, fell, Cleared, Some(l.to)) else l.(end := Reset)],
              Oldest(r'.track.cycles))
  {
    hide TrimLocks, Compact, Oldest, Extend;
    var f := r.track.fall.value;
    TruncateFacts(f.sample.at, f.sample.at);
    ConfirmChanges(r.track, e);
  }

  lemma ConfirmChanges(t: Track, e: Entry)
    requires TrackOk(t) && Confirms(t, e)
    ensures Add(t, e.x, e.estimated).changed
    ensures Add(t, e.x, e.estimated).ends == Some((t.fall.value.sample.at, Cleared))
  {
  }

  // The states of a run of readings, oldest first.
  ghost predicate Tracks(ts: seq<Track>, es: seq<Entry>) {
    && |ts| == |es| + 1 && ts[0] == EMPTY_TRACK
    && (forall i :: 0 <= i < |es| ==> Filled(ts[i].cycles) && ts[i + 1] == PutTrack(ts[i], es[i].x, es[i].estimated))
  }

  lemma {:induction false} TracksOk(ts: seq<Track>, es: seq<Entry>, n: nat)
    requires Tracks(ts, es) && n <= |es|
    ensures TrackOk(ts[n])
  {
    if n > 0 {
      TracksOk(ts, es, n - 1);
      PutTrackOk(ts[n - 1], es[n - 1].x, es[n - 1].estimated);
    }
  }

  // A pending fall is the reading at i, which fell, and nothing since has
  // changed the ring.
  lemma {:induction false} PendingSince(ts: seq<Track>, es: seq<Entry>, n: nat) returns (i: nat)
    requires Tracks(ts, es) && n <= |es| && ts[n].fall.Some?
    ensures i < n && Falls(ts[i].cycles, es[i]) && ts[n].fall == Some(Fall(SampleOf(es[i]), es[i].x.resetsAt))
    ensures ts[i].cycles == ts[n].cycles && forall j :: i < j <= n ==> ts[j] == ts[n]
  {
    hide TrackOk, Falls, Ignored, PutTrack, Confirms;
    var t, e := ts[n - 1], es[n - 1];
    TracksOk(ts, es, n - 1);
    TrackByClass(t, e);
    if ts[n] == t {
      i := PendingSince(ts, es, n - 1);
    } else {
      i := n - 1;
    }
  }

  lemma TrackByClass(t: Track, e: Entry)
    requires TrackOk(t)
    ensures var t' := PutTrack(t, e.x, e.estimated);
            t'.fall.Some? ==>
              t' == t || (Falls(t.cycles, e) && t.fall.None? && t' == t.(fall := Some(Fall(SampleOf(e), e.x.resetsAt))))
  {
    hide Extend, Compact;
    PutByClass(Ring(t, EMPTY_SPANS), e);
  }

  // In every run, a cycle opens under an unchanged, unexpired reset only at the
  // second of two falls with nothing recorded between them.
  lemma ClearingTakesTwo(ts: seq<Track>, es: seq<Entry>, n: nat) returns (i: nat)
    requires Tracks(ts, es) && n < |es| && Filled(ts[n].cycles)
    requires !Ignored(ts[n].cycles, es[n]) && !Turns(ts[n].cycles, es[n])
    requires |Add(ts[n], es[n].x, es[n].estimated).track.cycles| > |ts[n].cycles|
    ensures i < n && Falls(ts[i].cycles, es[i]) && Falls(ts[n].cycles, es[n])
    ensures SampleOf(es[i]).at < SampleOf(es[n]).at
    ensures forall j :: i < j <= n ==> ts[j].cycles == ts[i].cycles
  {
    TracksOk(ts, es, n);
    ClearingConfirms(ts[n], es[n]);
    i := PendingSince(ts, es, n);
  }
}
