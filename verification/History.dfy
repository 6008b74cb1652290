/** One window's recorded history: cycles of utilization samples and the spans
    in which the provider refused the window.

    The functions here specify the ring of internal/quota/history.go on values;
    HistoryRing holds the mutable ring proved against them. */
module History {
  import opened Basics

  // Utilization is counted in ten-thousandths, the unit recorded readings are
  // rounded to.
  const FINE_SPAN := DAY
  const FINE_STEP := MINUTE
  const COARSE_STEP := 10 * MINUTE
  const MAX_SAMPLES := 2600
  const MAX_LOCKS := 64
  const CLEAR_DROP := 500
  const CARRY_OVER_SPAN := 10 * MINUTE
  const CARRY_DRIFT := 200
  const RESET_TOLERANCE := 2 * MINUTE

  datatype Sample = Sample(at: int, util: int)

  // `until` is EstimatedUntil: the instant of the last estimated sample in a
  // cycle that turned observed.
  datatype Cycle = Cycle(resetsAt: Option<int>, samples: seq<Sample>, estimated: bool, until: Option<int>)

  datatype Fall = Fall(sample: Sample, resetsAt: Option<int>)

  // The cycles and the pending fall, which evolve without reading the spans.
  datatype Track = Track(cycles: seq<Cycle>, fall: Option<Fall>)

  datatype LockEnd = Ongoing | Reset | Served | Cleared

  datatype Lock = Lock(from: int, to: int, end: LockEnd, expected: Option<int>)

  datatype Spans = Spans(locks: seq<Lock>, refused: Option<int>, served: Option<int>)

  datatype Ring = Ring(track: Track, spans: Spans)

  // A reading with no instant or no finite utilization has None there.
  datatype Reading = Reading(at: Option<int>, util: Option<int>, resetsAt: Option<int>)

  const EMPTY_TRACK := Track([], None)
  const EMPTY_SPANS := Spans([], None, None)
  const EMPTY_RING := Ring(EMPTY_TRACK, EMPTY_SPANS)

  ghost predicate Filled(cs: seq<Cycle>) {
    forall i :: 0 <= i < |cs| ==> cs[i].samples != []
  }

  // ----- readings against the newest cycle

  predicate SampleEstimated(c: Cycle, s: Sample) {
    c.estimated || (c.until.Some? && s.at <= c.until.value)
  }

  predicate Rolled(cycle: Option<int>, reading: Option<int>) {
    cycle.Some? && reading.Some? &&
    (reading.value - cycle.value > RESET_TOLERANCE || cycle.value - reading.value > RESET_TOLERANCE)
  }

  predicate EndedBefore(cycle: Option<int>, reading: Option<int>, at: int) {
    cycle.Some? && reading.Some? && cycle.value - reading.value > RESET_TOLERANCE && reading.value <= at
  }

  predicate Closed(c: Cycle, at: int) {
    c.resetsAt.Some? && c.samples != [] &&
    at > c.resetsAt.value + RESET_TOLERANCE && Last(c.samples).at <= c.resetsAt.value + RESET_TOLERANCE
  }

  predicate FallsUnder(c: Cycle, s: Sample, estimated: bool) {
    !estimated && c.samples != [] && !SampleEstimated(c, Last(c.samples)) &&
    s.at > Last(c.samples).at && Last(c.samples).util - s.util > CLEAR_DROP
  }

  predicate NearRoll(cs: seq<Cycle>, at: int)
    requires Filled(cs)
  {
    |cs| >= 2 &&
    var prev, c := cs[|cs| - 2], Last(cs);
    prev.resetsAt.Some? && !c.estimated &&
    -RESET_TOLERANCE <= c.samples[0].at - prev.resetsAt.value <= CARRY_OVER_SPAN &&
    at - prev.resetsAt.value <= CARRY_OVER_SPAN
  }

  predicate CarriedOver(cs: seq<Cycle>, s: Sample)
    requires Filled(cs)
  {
    NearRoll(cs, s.at) &&
    var level := Last(cs[|cs| - 2].samples).util;
    s.util - Last(Last(cs).samples).util > CLEAR_DROP && 0 <= level - s.util <= CARRY_DRIFT
  }

  // ----- adding a reading

  // The cycle after a reading at its settled level, and whether it took it.
  function Absorb(c: Cycle, s: Sample, estimated: bool): (r: (Cycle, bool))
    requires c.samples != []
    ensures |c.samples| <= |r.0.samples| <= |c.samples| + 1 && r.0.resetsAt == c.resetsAt
  {
    var n, last := |c.samples|, Last(c.samples);
    if s.at <= last.at || s.util < last.util then (c, false)
    else if c.estimated && !estimated then
      (c.(estimated := false, until := Some(last.at), samples := c.samples + [s]), true)
    else if s.at - last.at < FINE_STEP then
      (c.(samples := Front(c.samples) + [s]), true)
    else if n >= 2 && last.util == s.util && c.samples[n - 2].util == s.util then
      (c.(samples := Front(c.samples) + [Sample(s.at, last.util)]), true)
    else (c.(samples := c.samples + [s]), true)
  }

  // The level a reading is recorded at: an observed one under an observed last
  // sample is the coarser source lagging.
  function Settle(c: Cycle, s: Sample, estimated: bool): Sample
    requires c.samples != []
  {
    var last := Last(c.samples);
    if s.util < last.util && !estimated && !SampleEstimated(c, last) then Sample(s.at, last.util) else s
  }

  function Named(c: Cycle, resetsAt: Option<int>): Cycle {
    if c.resetsAt.None? then c.(resetsAt := resetsAt) else c
  }

  // The newest cycle after a reading that stays in it, and whether it took it.
  function Extend(cs: seq<Cycle>, s: Sample, resetsAt: Option<int>, estimated: bool, replaying: bool): (r: (seq<Cycle>, bool))
    requires cs != [] && Filled(cs)
    ensures |r.0| == |cs| && Front(r.0) == Front(cs) && Filled(r.0)
  {
    var c := Named(Last(cs), resetsAt);
    var named := Front(cs) + [c];
    if !estimated && !replaying && CarriedOver(named, s) then (named, false)
    else
      var (c', taken) := Absorb(c, Settle(c, s, estimated), estimated);
      (Front(cs) + [c'], taken)
  }

  // What one reading did: the track it left, whether add reports a change, and
  // the instant and cause at which it ended an ongoing refusal span.
  datatype Step = Step(track: Track, changed: bool, ends: Option<(int, LockEnd)>)

  function AddSample(t: Track, s: Sample, resetsAt: Option<int>, estimated: bool, replaying: bool): (r: Step)
    requires Filled(t.cycles)
    ensures Filled(r.track.cycles) && (r.changed ==> r.track.cycles != [])
  {
    var cs := t.cycles;
    if cs != [] && EndedBefore(Last(cs).resetsAt, resetsAt, s.at) then Step(t, false, None)
    else if cs == [] || Rolled(Last(cs).resetsAt, resetsAt) || Closed(Last(cs), s.at) then
      Step(Track(cs + [Cycle(resetsAt, [s], estimated, None)], None), true,
           if cs == [] then None else Some((s.at, Reset)))
    else if !FallsUnder(Last(cs), s, estimated) then
      var (cs', taken) := Extend(cs, s, resetsAt, estimated, replaying);
      Step(Track(cs', None), taken, None)
    else if t.fall.None? then Step(Track(cs, Some(Fall(s, resetsAt))), false, None)
    else
      var f := t.fall.value;
      if s.at <= f.sample.at then Step(t, false, None)
      else if f.sample.util - s.util > CLEAR_DROP then
        Step(Track(cs + [Cycle(resetsAt, [s], false, None)], None), true, Some((f.sample.at, Cleared)))
      else
        var (cs', taken) := Extend(cs + [Cycle(f.resetsAt, [f.sample], false, None)], s, resetsAt, estimated, replaying);
        Step(Track(cs', None), taken, Some((f.sample.at, Cleared)))
  }

  function AddReading(t: Track, x: Reading, estimated: bool, replaying: bool): (r: Step)
    requires Filled(t.cycles)
    ensures Filled(r.track.cycles) && (r.changed ==> r.track.cycles != [])
  {
    if x.at.None? || x.util.None? then Step(t, false, None)
    else AddSample(t, Sample(Truncate(x.at.value), x.util.value), x.resetsAt, estimated, replaying)
  }

  function Add(t: Track, x: Reading, estimated: bool): (r: Step)
    requires Filled(t.cycles)
    ensures Filled(r.track.cycles) && (r.changed ==> r.track.cycles != [])
  {
    AddReading(t, x, estimated, false)
  }

  // ----- compaction

  predicate SameStep(a: Sample, b: Sample, step: int)
    requires step > 0
  {
    a.at / step == b.at / step
  }

  predicate Superseded(s: Sample, next: Sample, edge: int) {
    s.at < edge && next.at < edge && SameStep(s, next, COARSE_STEP)
  }

  function Coarsen(samples: seq<Sample>, edge: int): (out: seq<Sample>)
    ensures |out| <= |samples|
    ensures samples != [] ==> out != [] && Last(out) == Last(samples)
    ensures samples != [] ==> SameStep(out[0], samples[0], COARSE_STEP)
    ensures samples != [] && out[0] != samples[0] ==> out[0].at < edge && samples[0].at < edge
  {
    if |samples| <= 1 then samples
    else if Superseded(samples[0], samples[1], edge) then Coarsen(samples[1..], edge)
    else [samples[0]] + Coarsen(samples[1..], edge)
  }

  function CoarsenCycle(c: Cycle, edge: int): Cycle {
    if c.samples != [] && c.samples[0].at < edge then c.(samples := Coarsen(c.samples, edge)) else c
  }

  function CoarsenAll(cs: seq<Cycle>, edge: int): (out: seq<Cycle>)
    ensures |out| == |cs|
    ensures forall i :: 0 <= i < |cs| ==> out[i] == CoarsenCycle(cs[i], edge)
  {
    if cs == [] then [] else CoarsenAll(Front(cs), edge) + [CoarsenCycle(Last(cs), edge)]
  }

  function Total(cs: seq<Cycle>): nat {
    if cs == [] then 0 else |cs[0].samples| + Total(cs[1..])
  }

  lemma {:induction false} TotalSnoc(cs: seq<Cycle>, c: Cycle)
    ensures Total(cs + [c]) == Total(cs) + |c.samples|
  {
    if cs != [] {
      assert (cs + [c])[1..] == cs[1..] + [c];
      TotalSnoc(cs[1..], c);
    } else {
      assert ([c])[1..] == [];
    }
  }

  // The oldest `drop` samples gone. A cycle left with no estimated sample is
  // observed throughout.
  function Trimmed(c: Cycle, drop: nat): Cycle
    requires drop < |c.samples|
  {
    var rest := c.samples[drop..];
    c.(samples := rest, until := if c.until.Some? && rest[0].at > c.until.value then None else c.until)
  }

  function Evict(cs: seq<Cycle>, drop: nat): seq<Cycle>
    requires drop <= Total(cs)
  {
    if drop == 0 then cs
    else if |cs[0].samples| <= drop then Evict(cs[1..], drop - |cs[0].samples|)
    else [Trimmed(cs[0], drop)] + cs[1..]
  }

  function Edge(cs: seq<Cycle>): int
    requires cs != [] && Filled(cs)
  {
    Last(Last(cs).samples).at - FINE_SPAN
  }

  function Tiered(cs: seq<Cycle>): (out: seq<Cycle>)
    requires Filled(cs)
    ensures |out| == |cs| && Filled(out)
  {
    if cs == [] then cs else CoarsenAll(cs, Edge(cs))
  }

  function Compact(cs: seq<Cycle>): (out: seq<Cycle>)
    requires Filled(cs)
    ensures Filled(out)
  {
    var tiered := Tiered(cs);
    FilledEvict(tiered, Max(0, Total(tiered) - MAX_SAMPLES));
    Evict(tiered, Max(0, Total(tiered) - MAX_SAMPLES))
  }

  // put, on the cycles alone.
  function PutTrack(t: Track, x: Reading, estimated: bool): (r: Track)
    requires Filled(t.cycles)
    ensures Filled(r.cycles)
  {
    var step := Add(t, x, estimated);
    if step.changed then step.track.(cycles := Compact(step.track.cycles)) else step.track
  }

  // ----- refusal spans

  function EndSpan(sp: Spans, at: int, cause: LockEnd): (Spans, bool) {
    var n, t := |sp.locks|, Truncate(at);
    if n == 0 || !Last(sp.locks).end.Ongoing? || t <= Last(sp.locks).from then (sp, false)
    else
      var last := Last(sp.locks);
      var ended := if t < last.to then last.(to := t, end := cause, expected := Some(last.to)) else last.(end := Reset);
      (sp.(locks := Front(sp.locks) + [ended]), true)
  }

  function EndAt(sp: Spans, ends: Option<(int, LockEnd)>): Spans {
    if ends.Some? then EndSpan(sp, ends.value.0, ends.value.1).0 else sp
  }

  function Push(locks: seq<Lock>, l: Lock): seq<Lock> {
    (if locks != [] && Last(locks).end.Ongoing? then Front(locks) + [Last(locks).(end := Reset)] else locks) + [l]
  }

  // How many of the oldest spans ended before the oldest sample.
  function Passed(locks: seq<Lock>, oldest: Option<int>): (n: nat)
    ensures n <= |locks|
  {
    if locks == [] || oldest.None? || locks[0].to >= oldest.value then 0 else 1 + Passed(locks[1..], oldest)
  }

  function TrimLocks(locks: seq<Lock>, oldest: Option<int>): (out: seq<Lock>) {
    locks[Max(Passed(locks, oldest), |locks| - MAX_LOCKS)..]
  }

  function Oldest(cs: seq<Cycle>): Option<int> {
    if cs != [] && cs[0].samples != [] then Some(cs[0].samples[0].at) else None
  }

  function Refuse(sp: Spans, admitted: int, at0: int, until0: int, oldest: Option<int>): (Spans, bool) {
    var at, until, n := Truncate(at0), Truncate(until0), |sp.locks|;
    if until <= at || !After(admitted, sp.served) then (sp, false)
    else if n == 0 || at >= Last(sp.locks).to then
      (Spans(TrimLocks(Push(sp.locks, Lock(at, until, Ongoing, None)), oldest), Some(admitted), sp.served), true)
    else
      var last := Last(sp.locks);
      var refused := if After(admitted, sp.refused) then Some(admitted) else sp.refused;
      if at < last.from then
        if n > 1 && at < sp.locks[n - 2].to then (sp, false)
        else (sp.(locks := Front(sp.locks) + [last.(from := at)], refused := refused), true)
      else if last.end.Ongoing? || last.end.Served? then
        (sp.(locks := Front(sp.locks) + [Lock(last.from, until, Ongoing, None)], refused := refused),
         last.to != until || !last.end.Ongoing?)
      else (sp.(refused := refused), false)
  }

  function Serve(sp: Spans, admitted: int, at: int): (Spans, bool) {
    var sp1 := if After(admitted, sp.served) then sp.(served := Some(admitted)) else sp;
    if sp.locks == [] || !Last(sp.locks).end.Ongoing? || !After(admitted, sp.refused) then (sp1, false)
    else if Truncate(at) <= Last(sp.locks).from then (sp1.(locks := Front(sp.locks)), true)
    else EndSpan(sp1, at, Served)
  }

  function MergeLock(locks: seq<Lock>, l: Lock): seq<Lock> {
    if l.to <= l.from then locks
    else if locks == [] || l.from >= Last(locks).to then Push(locks, l)
    else if l.to > Last(locks).from then
      Front(locks) + [Lock(Min(l.from, Last(locks).from), l.to, l.end, l.expected)]
    else locks
  }

  // ----- the whole ring

  function Put(r: Ring, x: Reading, estimated: bool): (r': Ring)
    requires Filled(r.track.cycles)
    ensures Filled(r'.track.cycles)
  {
    var step := Add(r.track, x, estimated);
    var track := PutTrack(r.track, x, estimated);
    var ended := EndAt(r.spans, step.ends);
    Ring(track, if step.changed then ended.(locks := TrimLocks(ended.locks, Oldest(track.cycles))) else ended)
  }

  // ----- no step leaves an empty cycle

  lemma {:induction false} FilledEvict(cs: seq<Cycle>, drop: nat)
    requires Filled(cs) && drop <= Total(cs)
    ensures Filled(Evict(cs, drop))
    ensures drop < Total(cs) ==> Evict(cs, drop) != []
  {
    if drop > 0 && |cs[0].samples| <= drop {
      FilledEvict(cs[1..], drop - |cs[0].samples|);
    }
  }
}
