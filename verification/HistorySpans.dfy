/** What refusals and served requests do to the refusal spans, over whole runs
    and whatever order they are delivered in. */
module HistorySpans {
  import opened Basics
  import opened History
  import opened HistoryInvariants
  import opened HistoryFalls

  ghost predicate Covers(locks: seq<Lock>, t: int) {
    locks != [] && Last(locks).from <= t < Last(locks).to
  }

  // The newest span covers a refusal that is not stale, unless the refusal
  // reaches back into an older span or its span ended before the oldest sample.
  lemma RefusalCovered(sp: Spans, admitted: int, at: int, until: int, oldest: Option<int>)
    requires SpansOk(sp) && Truncate(at) < Truncate(until) && After(admitted, sp.served)
    ensures var n, sp' := |sp.locks|, Refuse(sp, admitted, at, until, oldest).0;
            Covers(sp'.locks, Truncate(at)) <==>
            if n == 0 || Truncate(at) >= Last(sp.locks).to then oldest.None? || oldest.value <= Truncate(until)
            else n == 1 || sp.locks[n - 2].to <= Truncate(at)
  {
    hide Truncate, LocksOk;
    var from, to := Truncate(at), Truncate(until);
    if sp.locks != [] {
      LastLock(sp.locks);
    }
    if sp.locks == [] || from >= Last(sp.locks).to {
      LocksEnds(sp.locks, Lock(from, to, Ongoing, None), oldest);
    }
  }

  // Trimming keeps a pushed span unless every span ended before the oldest
  // sample.
  lemma LocksEnds(locks: seq<Lock>, l: Lock, oldest: Option<int>)
    requires LocksOk(locks) && (locks != [] ==> Last(locks).to <= l.from) && l.from < l.to
    ensures var out := TrimLocks(Push(locks, l), oldest);
            if oldest.None? || oldest.value <= l.to then out != [] && Last(out) == l else out == []
  {
    var pushed := Push(locks, l);
    LocksDisjointEnds(locks);
    PassedLast(pushed, oldest);
  }

  lemma LocksDisjointEnds(locks: seq<Lock>)
    requires LocksOk(locks)
    ensures forall i :: 0 <= i < |locks| ==> locks[i].to <= Last(locks).to
  {
    forall i | 0 <= i < |locks| - 1
      ensures locks[i].to <= Last(locks).to
    {
      assert SpanOk(Last(locks));
    }
  }

  lemma {:induction false} PassedLast(locks: seq<Lock>, oldest: Option<int>)
    requires locks != [] && forall i :: 0 <= i < |locks| ==> locks[i].to <= Last(locks).to
    ensures if oldest.None? || oldest.value <= Last(locks).to then Passed(locks, oldest) < |locks| else Passed(locks, oldest) == |locks|
  {
    if |locks| > 1 {
      assert Last(locks[1..]) == Last(locks);
      PassedLast(locks[1..], oldest);
    } else {
      assert locks[1..] == [];
    }
  }

  // What a refusal the spans accept leaves: at or past the newest span's end,
  // or as the first, a span of its own behind the others, the newest of which
  // then ended by its reset if it was ongoing; inside an ongoing or served
  // span, that span ongoing again to the new reset; before a span's start and
  // not inside an older one, that start moved; inside one a reset or a clearing
  // ended, the spans as they were.
  lemma RefusalLeaves(sp: Spans, admitted: int, at: int, until: int, oldest: Option<int>)
    requires SpansOk(sp) && Truncate(at) < Truncate(until) && After(admitted, sp.served)
    ensures var from, to, n, locks := Truncate(at), Truncate(until), |sp.locks|, Refuse(sp, admitted, at, until, oldest).0.locks;
            if n == 0 then locks == TrimLocks([Lock(from, to, Ongoing, None)], oldest)
            else
              var l := sp.locks[n - 1];
              if l.to <= from then
                locks == TrimLocks(sp.locks[..n - 1] + [if l.end.Ongoing? then Lock(l.from, l.to, Reset, l.expected) else l] + [Lock(from, to, Ongoing, None)], oldest)
              else if from < l.from then
                locks == if n > 1 && from < sp.locks[n - 2].to then sp.locks else sp.locks[n - 1 := Lock(from, l.to, l.end, l.expected)]
              else locks == if l.end.Reset? || l.end.Cleared? then sp.locks else sp.locks[n - 1 := Lock(l.from, to, Ongoing, None)]
  {
    hide Truncate, TrimLocks, LocksOk;
    var l := Lock(Truncate(at), Truncate(until), Ongoing, None);
    if sp.locks != [] {
      assert sp.locks == Front(sp.locks) + [Last(sp.locks)];
    } else {
      assert Push(sp.locks, l) == [l];
    }
  }

  // A span ends at a served request admitted after its latest refusal: at the
  // second it was answered, keeping the reset it expected, or by that reset
  // when it had come; one answered in the second it opened drops it.
  lemma ServedEndsSpan(sp: Spans, admitted: int, at: int)
    requires sp.locks != [] && Last(sp.locks).end.Ongoing? && After(admitted, sp.refused)
    ensures var l, t, n := Last(sp.locks), Truncate(at), |sp.locks|;
            Serve(sp, admitted, at).0.locks ==
            if t <= l.from then sp.locks[..n - 1]
            else if t < l.to then sp.locks[n - 1 := Lock(l.from, t, Served, Some(l.to))]
            else sp.locks[n - 1 := Lock(l.from, l.to, Reset, l.expected)]
  {
    hide Truncate;
  }

  // A read that clears a window ends its ongoing span the same way.
  lemma ClearEndsSpan(r: Ring, at: int)
    requires r.spans.locks != []
    requires Filled(r.track.cycles)
    ensures var l, t, n := Last(r.spans.locks), Truncate(at), |r.spans.locks|;
            Apply(r, OpClear(at)) == r.(spans := r.spans.(locks :=
              if !l.end.Ongoing? || t <= l.from then r.spans.locks
              else if t < l.to then r.spans.locks[n - 1 := Lock(l.from, t, Cleared, Some(l.to))]
              else r.spans.locks[n - 1 := Lock(l.from, l.to, Reset, l.expected)]))
  {
    hide Truncate;
  }

  // Trimming keeps a span exactly when it is among the newest 64 and did not
  // end before the oldest sample, and keeps their order.
  lemma TrimExact(locks: seq<Lock>, oldest: Option<int>)
    requires LocksOk(locks)
    ensures var out := TrimLocks(locks, oldest);
            && out == locks[|locks| - |out|..]
            && forall i :: 0 <= i < |locks| ==> (i >= |locks| - |out| <==> i >= |locks| - 64 && (oldest.None? || oldest.value <= locks[i].to))
  {
    hide LocksOk;
    PassedExact(locks, oldest);
    var drop := Max(Passed(locks, oldest), |locks| - MAX_LOCKS);
    assert |TrimLocks(locks, oldest)| == |locks| - drop;
    forall i | 0 <= i < |locks|
      ensures i >= drop <==> i >= |locks| - 64 && (oldest.None? || oldest.value <= locks[i].to)
    {
      assert i < Passed(locks, oldest) <==> oldest.Some? && locks[i].to < oldest.value;
    }
  }

  lemma {:induction false} PassedExact(locks: seq<Lock>, oldest: Option<int>)
    requires LocksOk(locks)
    ensures forall i :: 0 <= i < |locks| ==> (i < Passed(locks, oldest) <==> oldest.Some? && locks[i].to < oldest.value)
  {
    if locks != [] {
      PassedExact(locks[1..], oldest);
      forall i | 0 < i < |locks|
        ensures locks[0].to <= locks[i].to && locks[i] == locks[1..][i - 1]
      {
        assert SpanOk(locks[i]);
      }
    }
  }

  // ----- the admission a span's latest refusal is known by

  // The refusal opens a span of its own.
  predicate OpensSpan(sp: Spans, admitted: int, at: int, until: int) {
    && Truncate(at) < Truncate(until) && After(admitted, sp.served)
    && (sp.locks == [] || Last(sp.locks).to <= Truncate(at))
  }

  // The refusal is neither stale nor without length, and does not reach back
  // into a span older than the newest.
  predicate Accepts(sp: Spans, admitted: int, at: int, until: int) {
    && Truncate(at) < Truncate(until) && After(admitted, sp.served)
    && (|sp.locks| > 1 && Truncate(at) < Last(sp.locks).from ==> sp.locks[|sp.locks| - 2].to <= Truncate(at))
  }

  predicate NotBefore(a: Option<int>, b: Option<int>) { b.Some? ==> a.Some? && b.value <= a.value }

  // A refusal that opens no span never lowers the admission on record; one that
  // does sets it; an accepted one leaves it no earlier than its own, and at one
  // of the two.
  lemma RefusedRises(sp: Spans, admitted: int, at: int, until: int, oldest: Option<int>)
    requires SpansOk(sp)
    ensures var refused := Refuse(sp, admitted, at, until, oldest).0.refused;
            && (OpensSpan(sp, admitted, at, until) ==> refused == Some(admitted))
            && (!OpensSpan(sp, admitted, at, until) ==> NotBefore(refused, sp.refused))
            && (Accepts(sp, admitted, at, until) ==> NotBefore(refused, Some(admitted)))
            && (refused == sp.refused || (Accepts(sp, admitted, at, until) && refused == Some(admitted)))
  {
    hide Truncate, TrimLocks, Push;
    if |sp.locks| > 1 {
      assert SpanOk(Last(sp.locks));
    }
  }

  // ----- whole runs

  lemma ServedOnly(r: Ring, op: Op)
    requires Filled(r.track.cycles)
    ensures Apply(r, op).spans.served ==
            if op.OpServe? && After(op.admitted, r.spans.served) then Some(op.admitted) else r.spans.served
    ensures var r' := Apply(r, op);
            r'.spans.refused == r.spans.refused || (op.OpRefuse? && r'.spans.refused == Some(op.admitted))
  {
    hide Truncate, TrimLocks, PutTrack, Add, Push;
  }

  // The served admission on record is the greatest in the run.
  lemma {:induction false} ServedIsGreatest(states: seq<Ring>, ops: seq<Op>, n: nat)
    requires Run(states, ops) && n <= |ops|
    ensures forall j :: 0 <= j < n && ops[j].OpServe? ==> !After(ops[j].admitted, states[n].spans.served)
    ensures states[n].spans.served.Some? ==> exists j :: 0 <= j < n && ops[j].OpServe? && ops[j].admitted == states[n].spans.served.value
  {
    hide Apply;
    if n > 0 {
      ServedIsGreatest(states, ops, n - 1);
      RunOk(states, ops, n - 1);
      ServedOnly(states[n - 1], ops[n - 1]);
      if states[n].spans.served.Some? && states[n].spans.served != states[n - 1].spans.served {
        assert ops[n - 1].OpServe? && ops[n - 1].admitted == states[n].spans.served.value;
      }
    }
  }

  // The refused admission on record is one the run made.
  lemma {:induction false} RefusedWasMade(states: seq<Ring>, ops: seq<Op>, n: nat) returns (i: nat)
    requires Run(states, ops) && n <= |ops| && states[n].spans.refused.Some?
    ensures i < n && ops[i].OpRefuse? && ops[i].admitted == states[n].spans.refused.value
  {
    hide Apply;
    RunOk(states, ops, n - 1);
    ServedOnly(states[n - 1], ops[n - 1]);
    if states[n].spans.refused == states[n - 1].spans.refused {
      i := RefusedWasMade(states, ops, n - 1);
    } else {
      i := n - 1;
    }
  }

  // A refusal admitted at or before any request the run has served changes
  // nothing, however late it is delivered.
  lemma StaleRefusalInert(states: seq<Ring>, ops: seq<Op>, served: nat, n: nat)
    requires Run(states, ops) && served < n < |ops|
    requires ops[served].OpServe? && ops[n].OpRefuse? && ops[n].admitted <= ops[served].admitted
    ensures states[n + 1] == states[n]
  {
    hide Truncate, TrimLocks, Push;
    ServedIsGreatest(states, ops, n);
  }

  // While the newest span is ongoing, some refusal of the run was admitted no
  // earlier than every request the run has served.
  lemma OngoingOutlastsServed(states: seq<Ring>, ops: seq<Op>, n: nat) returns (i: nat)
    requires Run(states, ops) && n <= |ops|
    requires states[n].spans.locks != [] && Last(states[n].spans.locks).end.Ongoing?
    ensures i < n && ops[i].OpRefuse?
    ensures forall j :: 0 <= j < n && ops[j].OpServe? ==> ops[j].admitted <= ops[i].admitted
  {
    hide Apply;
    RunOk(states, ops, n);
    ServedIsGreatest(states, ops, n);
    i := RefusedWasMade(states, ops, n);
  }

  // A served request admitted after every refusal of the run leaves no span
  // ongoing.
  lemma ServedEnds(states: seq<Ring>, ops: seq<Op>, n: nat)
    requires Run(states, ops) && n < |ops| && ops[n].OpServe?
    requires forall j :: 0 <= j < n && ops[j].OpRefuse? ==> ops[j].admitted < ops[n].admitted
    ensures states[n + 1].spans.locks == [] || !Last(states[n + 1].spans.locks).end.Ongoing?
  {
    hide Truncate;
    RunOk(states, ops, n);
    var sp := states[n].spans;
    if sp.refused.Some? {
      var i := RefusedWasMade(states, ops, n);
    }
    if |sp.locks| >= 2 {
      LastLock(sp.locks);
    }
  }

  lemma RefusedSince(states: seq<Ring>, ops: seq<Op>, i: nat, n: nat)
    requires Run(states, ops) && i < n <= |ops| && ops[i].OpRefuse?
    requires Accepts(states[i].spans, ops[i].admitted, ops[i].at, ops[i].until)
    requires forall j :: i < j < n && ops[j].OpRefuse? ==> !OpensSpan(states[j].spans, ops[j].admitted, ops[j].at, ops[j].until)
    ensures NotBefore(states[n].spans.refused, Some(ops[i].admitted))
    decreases n
  {
    hide Accepts, OpensSpan, Refuse, RingOk;
    RunOk(states, ops, n - 1);
    SoundOf(states[n - 1]);
    ServedOnly(states[n - 1], ops[n - 1]);
    if ops[n - 1].OpRefuse? {
      var sp, op := states[n - 1].spans, ops[n - 1];
      RefusedRises(sp, op.admitted, op.at, op.until, Oldest(states[n - 1].track.cycles));
    }
    if i < n - 1 {
      RefusedSince(states, ops, i, n - 1);
    }
  }

  lemma SoundOf(r: Ring)
    requires RingOk(r)
    ensures SpansOk(r.spans)
  {
  }

  // Over every run a served request admitted at or before a refusal accepted
  // since the newest span opened was in flight while the window refused, and
  // leaves the spans, whatever older refusals were delivered in between.
  lemma InFlightLeavesSpans(states: seq<Ring>, ops: seq<Op>, i: nat, n: nat)
    requires Run(states, ops) && i < n < |ops| && ops[i].OpRefuse? && ops[n].OpServe?
    requires Accepts(states[i].spans, ops[i].admitted, ops[i].at, ops[i].until)
    requires forall j :: i < j < n && ops[j].OpRefuse? ==> !OpensSpan(states[j].spans, ops[j].admitted, ops[j].at, ops[j].until)
    requires ops[n].admitted <= ops[i].admitted
    ensures states[n + 1].spans.locks == states[n].spans.locks && states[n + 1].track == states[n].track
  {
    hide Accepts, OpensSpan, EndSpan;
    RefusedSince(states, ops, i, n);
  }

  // ----- late answers around a reset

  // A reading of the window that ended: stamped with its expired reset, or
  // jumping back to its level just after the roll.
  ghost predicate LateAnswer(cs: seq<Cycle>, e: Entry)
    requires Filled(cs) && cs != []
  {
    && e.x.at.Some? && e.x.util.Some? && !e.estimated
    && (|| EndedBefore(Last(cs).resetsAt, e.x.resetsAt, SampleOf(e).at)
        || (&& !Rolled(Last(cs).resetsAt, e.x.resetsAt) && !Closed(Last(cs), SampleOf(e).at)
            && CarriedOver(cs, SampleOf(e))))
  }

  ghost predicate AllLate(r: Ring, es: seq<Entry>)
    requires Filled(r.track.cycles)
    decreases |es|
  {
    es == [] || (r.track.cycles != [] && LateAnswer(r.track.cycles, es[0]) && AllLate(Put(r, es[0].x, es[0].estimated), es[1..]))
  }

  ghost predicate SameSamples(cs: seq<Cycle>, ds: seq<Cycle>) {
    |cs| == |ds| && forall i :: 0 <= i < |cs| ==> cs[i].samples == ds[i].samples
  }

  lemma LateLeaves(r: Ring, e: Entry)
    requires Filled(r.track.cycles) && r.track.cycles != [] && LateAnswer(r.track.cycles, e)
    ensures var r' := Put(r, e.x, e.estimated);
            SameSamples(r'.track.cycles, r.track.cycles) && r'.spans == r.spans
  {
    hide Compact, EndSpan, TrimLocks, AddSample, LateAnswer;
    LateAdds(r.track, e);
  }

  lemma LateAdds(t: Track, e: Entry)
    requires Filled(t.cycles) && t.cycles != [] && LateAnswer(t.cycles, e)
    ensures var step := Add(t, e.x, e.estimated);
            !step.changed && step.ends.None? && SameSamples(step.track.cycles, t.cycles)
  {
    hide Absorb, Settle, Rolled, Closed;
  }

  // However many arrive in a row, they record nothing and end no span.
  lemma {:induction false} LateAnswersLeaveNothing(r: Ring, es: seq<Entry>)
    requires Filled(r.track.cycles) && AllLate(r, es)
    ensures var r' := PutRun(r, es); SameSamples(r'.track.cycles, r.track.cycles) && r'.spans == r.spans
    decreases |es|
  {
    hide LateAnswer, Put;
    if es != [] {
      LateLeaves(r, es[0]);
      LateAnswersLeaveNothing(Put(r, es[0].x, es[0].estimated), es[1..]);
    }
  }

  // ----- recorded spans

  ghost predicate InSome(locks: seq<Lock>, t: int) { exists i :: 0 <= i < |locks| && locks[i].from <= t < locks[i].to }

  lemma InSomeSnoc(locks: seq<Lock>, l: Lock, t: int)
    ensures InSome(locks + [l], t) <==> InSome(locks, t) || l.from <= t < l.to
  {
    if InSome(locks, t) {
      var i :| 0 <= i < |locks| && locks[i].from <= t < locks[i].to;
      assert (locks + [l])[i] == locks[i];
    }
    if l.from <= t < l.to {
      assert (locks + [l])[|locks|] == l;
    }
  }

  // A recorded span ends the newest one with its own end and cause, and refuses
  // what it did and what the spans before did, but for what an overlapped
  // newest one refused from the recorded end on; one that ends before the
  // newest begins, or has no length, changes nothing.
  lemma MergeLockTakes(locks: seq<Lock>, l: Lock, t: int)
    requires LocksOk(locks)
    ensures var m := MergeLock(locks, l);
            if l.to <= l.from || (locks != [] && l.to <= Last(locks).from) then m == locks
            else
              && m != [] && Last(m).to == l.to && Last(m).end == l.end && Last(m).expected == l.expected
              && (InSome(m, t) <==> l.from <= t < l.to || (InSome(locks, t) && !(Last(locks).from <= t && l.to <= t < Last(locks).to)))
  {
    hide LocksOk;
    var m := MergeLock(locks, l);
    if locks != [] {
      var last := Last(locks);
      assert locks == Front(locks) + [last];
      InSomeSnoc(Front(locks), last, t);
      InSomeSnoc(Front(locks), last.(end := Reset), t);
      InSomeSnoc(locks, l, t);
      InSomeSnoc(Front(locks) + [last.(end := Reset)], l, t);
      InSomeSnoc(Front(locks), Lock(Min(l.from, last.from), l.to, l.end, l.expected), t);
      FrontEnds(locks, t);
    } else {
      InSomeSnoc([], l, t);
      assert [] + [l] == [l];
    }
  }

  // The spans before the newest end by its start.
  lemma FrontEnds(locks: seq<Lock>, t: int)
    requires LocksOk(locks) && locks != []
    ensures InSome(Front(locks), t) ==> t < Last(locks).from
    ensures Last(locks).from < Last(locks).to
  {
  }
}
