/** What the snapshot store records: every history it holds is a run of the
    ring's operations, one for each reading, refusal and request that counts. */
module QuotaHistories {
  import opened Basics
  import opened Windows
  import opened History
  import opened HistoryInvariants
  import opened QuotaTable
  import opened QuotaRegister
  import opened QuotaEffects
  import opened QuotaRuns

  // A finite utilization is recorded at the nearest ten-thousandth, halves away
  // from zero; any other is not recorded.
  lemma LevelRounds(u: Float)
    ensures Level(u).Some? <==> u.Fin?
    ensures u.Fin? ==>
              var n, x := Level(u).value as real, u.r * 10000.0;
              x - 0.5 <= n <= x + 0.5 && (n == x + 0.5 ==> x > 0.0) && (n == x - 0.5 ==> x < 0.0)
  {
  }

  function ApplyAll(r: Ring, ops: seq<Op>): (r': Ring)
    requires RingOk(r)
    ensures RingOk(r')
  {
    if ops == [] then r
    else
      var before := ApplyAll(r, Front(ops));
      ApplyOk(before, Last(ops));
      Apply(before, Last(ops))
  }

  lemma ApplySnoc(r: Ring, ops: seq<Op>, op: Op)
    requires RingOk(r)
    ensures ApplyAll(r, ops + [op]) == Apply(ApplyAll(r, ops), op)
  {
    hide RingOk, Apply;
    assert Front(ops + [op]) == ops;
  }

  lemma {:induction false} ApplyConcat(r: Ring, xs: seq<Op>, ys: seq<Op>)
    requires RingOk(r)
    ensures ApplyAll(r, xs + ys) == ApplyAll(ApplyAll(r, xs), ys)
  {
    hide RingOk, Apply;
    if ys == [] {
      assert xs + ys == xs;
    } else {
      ApplyConcat(r, xs, Front(ys));
      assert Front(xs + ys) == xs + Front(ys);
    }
  }

  lemma RingSound(e: Entry, k: Key)
    requires RingsOk(e)
    ensures RingOk(RingFor(e, k))
  {
    hide TrackOk, SpansOk;
    EmptySound();
  }

  lemma EmptySound()
    ensures RingOk(EMPTY_RING)
  {
  }

  // ----- readings

  function Told(at: Option<int>, w: Window): Op { OpPut(Reading(at, Level(w.util), w.resetsAt), false) }

  lemma ObserveApplies(e: Entry, at: Option<int>, w: Window, k: Key)
    requires RingsOk(e)
    ensures RingOk(RingFor(e, k))
    ensures RingFor(Observe(e, at, w), k) == if KeyOf(w) == k then Apply(RingFor(e, k), Told(at, w)) else RingFor(e, k)
  {
    hide RingsOk, RingOk, History.Put;
    RingSound(e, k);
  }

  // A read's readings of a window that the store keeps none later of.
  function ReadOps(prior: Option<Entry>, ws: seq<Window>, n: nat, at: Option<int>, k: Key): seq<Op>
    requires n <= |ws|
  {
    if n == 0 then []
    else ReadOps(prior, ws, n - 1, at, k) + if KeyOf(ws[n - 1]) == k && !Keeps(prior, ws[n - 1], at) then [Told(at, ws[n - 1])] else []
  }

  lemma {:induction false} ReadApplies(e: Entry, prior: Option<Entry>, ws: seq<Window>, n: nat, at: Option<int>, k: Key)
    requires RingsOk(e) && n <= |ws|
    ensures RingOk(RingFor(e, k)) && RingFor(PutUpTo(e, prior, ws, n, at), k) == ApplyAll(RingFor(e, k), ReadOps(prior, ws, n, at, k))
  {
    hide RingsOk, RingOk, Observe, Keeps, RingFor, Apply;
    RingSound(e, k);
    if n > 0 {
      var e1, w, ops := PutUpTo(e, prior, ws, n - 1, at), ws[n - 1], ReadOps(prior, ws, n - 1, at, k);
      ReadApplies(e, prior, ws, n - 1, at, k);
      PutWindowApplies(e1, prior, w, at, k);
      ApplySnoc(RingFor(e, k), ops, Told(at, w));
      assert ops + [] == ops;
    }
  }

  lemma PutWindowApplies(e: Entry, prior: Option<Entry>, w: Window, at: Option<int>, k: Key)
    requires RingsOk(e)
    ensures RingOk(RingFor(e, k))
    ensures RingFor(PutWindow(e, prior, w, at), k) ==
            if KeyOf(w) == k && !Keeps(prior, w, at) then Apply(RingFor(e, k), Told(at, w)) else RingFor(e, k)
  {
    hide RingsOk, RingOk, Observe, Keeps, Apply;
    RingSound(e, k);
    ObserveApplies(e, at, w, k);
  }

  // A merge's readings of a window that are not late and that the headers
  // stated.
  function MergeOps(e: Entry, ws: seq<Window>, n: nat, at: Option<int>, k: Key): seq<Op>
    requires n <= |ws|
  {
    if n == 0 then []
    else MergeOps(e, ws, n - 1, at, k) + if KeyOf(ws[n - 1]) == k && !ws[n - 1].derived && !Late(e, ws[n - 1], at) then [Told(at, ws[n - 1])] else []
  }

  lemma {:induction false} MergeApplies(e: Entry, ws: seq<Window>, n: nat, at: Option<int>, k: Key)
    requires RingsOk(e) && n <= |ws|
    ensures RingOk(RingFor(e, k)) && RingFor(MergeUpTo(e, ws, n, at).e, k) == ApplyAll(RingFor(e, k), MergeOps(e, ws, n, at, k))
  {
    hide RingsOk, RingOk, Late, RingFor, Apply, MergeOne;
    RingSound(e, k);
    if n > 0 {
      var m, w, ops := MergeUpTo(e, ws, n - 1, at), ws[n - 1], MergeOps(e, ws, n - 1, at, k);
      MergeApplies(e, ws, n - 1, at, k);
      LateIsSettled(e, ws, n - 1, w, at);
      MergeOneApplies(m, w, at, k);
      ApplySnoc(RingFor(e, k), ops, Told(at, w));
      assert ops + [] == ops;
    }
  }

  lemma MergeOneApplies(m: Merging, w: Window, at: Option<int>, k: Key)
    requires RingsOk(m.e)
    ensures RingOk(RingFor(m.e, k))
    ensures RingFor(MergeOne(m, w, at).e, k) ==
            if KeyOf(w) == k && !w.derived && !Late(m.e, w, at) then Apply(RingFor(m.e, k), Told(at, w)) else RingFor(m.e, k)
  {
    hide RingsOk, RingOk, Observe, Late, Apply, MergedWindows;
    RingSound(m.e, k);
    ObserveApplies(m.e, at, w, k);
  }

  // A read of distinct windows puts its reading of each it carries into the
  // history the store held, unless the store keeps a later one.
  lemma ReadRecords(prior: Option<Entry>, held: Option<Entry>, snap: Snapshot, i: nat)
    requires (held.Some? ==> RingsOk(held.value)) && Distinct(snap.windows) && i < |snap.windows|
    ensures var w, k := snap.windows[i], KeyOf(snap.windows[i]);
            var before := if held.Some? then RingFor(held.value, k) else EMPTY_RING;
            && RingOk(before)
            && RingFor(Reread(prior, held, snap), k) ==
               if prior.Some? && Later(SeenAt(prior.value, k), snap.observedAt) && Holds(prior.value.snap.windows, k) then before
               else History.Put(before, Reading(snap.observedAt, Level(w.util), w.resetsAt), false)
  {
    hide RingsOk, RingOk, Reread, Distinct, Apply, History.Put, Reopened, ReadOps, SilenceOps, IndexOf, RingFor, Level;
    var ws, at, k, e0 := snap.windows, snap.observedAt, KeyOf(snap.windows[i]), Reopened(prior, held, snap);
    ReopenedRing(prior, held, snap, k);
    RereadApplies(prior, held, snap, k);
    OneReading(prior, ws, |ws|, i, at);
    CarriedSpeaks(e0, ws, at, i);
    assert ReadOps(prior, ws, |ws|, at, k) + [] == ReadOps(prior, ws, |ws|, at, k);
    ApplySnoc(RingFor(e0, k), [], Told(at, ws[i]));
    assert [] + [Told(at, ws[i])] == [Told(at, ws[i])];
    PutApply(RingFor(e0, k), at, ws[i]);
  }

  // A read is not silent about a window it carries.
  lemma CarriedSpeaks(e: Entry, ws: seq<Window>, at: Option<int>, i: nat)
    requires i < |ws|
    ensures SilenceOps(e, ws, at, KeyOf(ws[i])) == []
  {
    hide Unscoped;
  }

  lemma PutApply(r: Ring, at: Option<int>, w: Window)
    requires RingOk(r)
    ensures ApplyAll(r, []) == r && Apply(r, Told(at, w)) == History.Put(r, Reading(at, Level(w.util), w.resetsAt), false)
  {
    hide RingOk, History.Put;
    RingFilled(r);
  }

  lemma RingFilled(r: Ring)
    requires RingOk(r)
    ensures Filled(r.track.cycles)
  {
  }

  lemma ReopenedRing(prior: Option<Entry>, held: Option<Entry>, snap: Snapshot, k: Key)
    requires held.Some? ==> RingsOk(held.value)
    ensures RingFor(Reopened(prior, held, snap), k) == if held.Some? then RingFor(held.value, k) else EMPTY_RING
  {
  }

  lemma {:induction false} OneReading(prior: Option<Entry>, ws: seq<Window>, n: nat, i: nat, at: Option<int>)
    requires Distinct(ws) && i < n <= |ws|
    ensures ReadOps(prior, ws, n, at, KeyOf(ws[i])) == if Keeps(prior, ws[i], at) then [] else [Told(at, ws[i])]
  {
    hide Keeps, Told, Distinct;
    var k := KeyOf(ws[i]);
    if i < n - 1 {
      OneReading(prior, ws, n - 1, i, at);
      DistinctAt(ws, i, n - 1);
      assert ReadOps(prior, ws, n, at, k) == ReadOps(prior, ws, n - 1, at, k) + [];
    } else {
      forall j | 0 <= j < n - 1
        ensures KeyOf(ws[j]) != k
      {
        DistinctAt(ws, j, i);
      }
      NoReading(prior, ws, n - 1, at, k);
    }
  }

  lemma DistinctAt(ws: seq<Window>, i: nat, j: nat)
    requires Distinct(ws) && i < j < |ws|
    ensures KeyOf(ws[i]) != KeyOf(ws[j])
  {
  }

  lemma {:induction false} NoReading(prior: Option<Entry>, ws: seq<Window>, n: nat, at: Option<int>, k: Key)
    requires n <= |ws| && forall i :: 0 <= i < n ==> KeyOf(ws[i]) != k
    ensures ReadOps(prior, ws, n, at, k) == []
  {
    hide Keeps, Told;
    if n > 0 {
      NoReading(prior, ws, n - 1, at, k);
    }
  }

  // ----- refusals, requests and silence

  // A request's refused readings of a window.
  function RefusedOps(stored: seq<Window>, ws: seq<Window>, n: nat, admitted: int, at: int, k: Key): seq<Op>
    requires n <= |ws|
  {
    if n == 0 then []
    else
      var w, before := ws[n - 1], RefusedOps(stored, ws, n - 1, admitted, at, k);
      var until := RefusedUntil(w, stored, at);
      before + if KeyOf(w) == k && w.status == REJECTED && until.Some? then [OpRefuse(admitted, at, until.value)] else []
  }

  // Where a refusal changes no span of an empty history, it changes nothing.
  lemma RefusedEmpty(admitted: int, at: int, until: int)
    ensures var (spans, changed) := Refuse(EMPTY_RING.spans, admitted, at, until, Oldest(EMPTY_RING.track.cycles));
            !changed ==> EMPTY_RING.(spans := spans) == EMPTY_RING
  {
  }

  lemma RefuseOneApplies(e: Entry, w: Window, admitted: int, at: int, k: Key)
    requires RingsOk(e)
    ensures RingOk(RingFor(e, k))
    ensures var until := RefusedUntil(w, e.snap.windows, at);
            RingFor(RefuseOne(e, w, admitted, at).0, k) ==
            if KeyOf(w) == k && w.status == REJECTED && until.Some? then Apply(RingFor(e, k), OpRefuse(admitted, at, until.value)) else RingFor(e, k)
  {
    hide RingsOk, RingOk, Refuse, RefusedUntil;
    RingSound(e, k);
    var until := RefusedUntil(w, e.snap.windows, at);
    if KeyOf(w) != k {
      RefuseOneOther(e, w, admitted, at, k);
    } else if w.status == REJECTED && until.Some? {
      RefusedEmpty(admitted, at, until.value);
      RingFilled(RingFor(e, k));
    }
  }

  lemma {:induction false} RefusalsApply(e: Entry, ws: seq<Window>, n: nat, admitted: int, at: int, k: Key)
    requires RingsOk(e) && n <= |ws|
    ensures RingOk(RingFor(e, k))
    ensures RingFor(RefuseUpTo(e, ws, n, admitted, at).0, k) == ApplyAll(RingFor(e, k), RefusedOps(e.snap.windows, ws, n, admitted, at, k))
  {
    hide RingsOk, RingOk, RefuseOne, RefusedUntil, RingFor, Apply;
    RingSound(e, k);
    if n > 0 {
      var e1, w, ops := RefuseUpTo(e, ws, n - 1, admitted, at).0, ws[n - 1], RefusedOps(e.snap.windows, ws, n - 1, admitted, at, k);
      RefusalsApply(e, ws, n - 1, admitted, at, k);
      RefuseOneApplies(e1, w, admitted, at, k);
      var until := RefusedUntil(w, e.snap.windows, at);
      if until.Some? {
        ApplySnoc(RingFor(e, k), ops, OpRefuse(admitted, at, until.value));
      }
      assert ops + [] == ops;
    }
  }

  lemma WholeOrder(e: Entry, k: Key)
    requires RingsOk(e)
    ensures k in e.order[..|e.order|] <==> k in e.rings
    ensures k !in e.rings ==> RingFor(e, k) == EMPTY_RING
  {
    hide RingOk;
    assert e.order[..|e.order|] == e.order;
  }

  lemma ServedApplies(e: Entry, family: string, admitted: int, at: int, k: Key)
    requires RingsOk(e)
    ensures RingOk(RingFor(e, k))
    ensures RingFor(ServeUpTo(e, |e.order|, family, admitted, at).0, k) ==
            ApplyAll(RingFor(e, k), if k in e.rings && Caps(k, family) then [OpServe(admitted, at)] else [])
  {
    hide RingsOk, RingOk, Serve, Caps, ServeUpTo;
    RingSound(e, k);
    WholeOrder(e, k);
    RingFilled(RingFor(e, k));
    ApplySnoc(RingFor(e, k), [], OpServe(admitted, at));
    assert [] + [OpServe(admitted, at)] == [OpServe(admitted, at)];
    if k in e.rings {
      ServeReaches(e, |e.order|, family, admitted, at, k);
    }
  }

  // A read's silence about a window, as an operation on its history.
  function SilenceOps(held: Entry, ws: seq<Window>, at: Option<int>, k: Key): seq<Op> {
    if Unscoped(ws) && k.scope == "" && !Holds(ws, k) && k in held.read && k in held.rings && at.Some? then [OpClear(at.value)] else []
  }

  // What a read does to any window's history: its readings of the window that
  // the store keeps none later of, or its silence.
  lemma RereadApplies(prior: Option<Entry>, held: Option<Entry>, snap: Snapshot, k: Key)
    requires held.Some? ==> RingsOk(held.value)
    ensures var e0 := Reopened(prior, held, snap);
            && RingOk(RingFor(e0, k))
            && RingFor(Reread(prior, held, snap), k) ==
               ApplyAll(RingFor(e0, k), ReadOps(prior, snap.windows, |snap.windows|, snap.observedAt, k)
                                        + SilenceOps(e0, snap.windows, snap.observedAt, k))
  {
    hide RingsOk, RingOk, PutUpTo, OmitUpTo, Unscoped, IndexOf, Apply, Reopened, ClearedRing, Keeps;
    var ws, at, e0 := snap.windows, snap.observedAt, Reopened(prior, held, snap);
    var e1, ops := PutUpTo(e0, prior, ws, |ws|, at), ReadOps(prior, ws, |ws|, at, k);
    RingSound(e0, k);
    RingSound(e1, k);
    ReadApplies(e0, prior, ws, |ws|, at, k);
    PutUpToKeys(e0, prior, ws, |ws|, at);
    UnscopedByKeys(ws, e1.snap.windows);
    SameKeysSameIndex(ws, e1.snap.windows, k);
    WholeOrder(e1, k);
    assert ops + [] == ops;
    if !Holds(ws, k) {
      NoReading(prior, ws, |ws|, at, k);
      PutStaysOnRecord(e0, prior, ws, |ws|, at, k);
    }
    if Unscoped(ws) {
      if k in e1.rings {
        OmitUpToRing(e1, prior, e0.read, |e1.order|, at, k);
        if at.Some? {
          ApplySnoc(RingFor(e0, k), ops, OpClear(at.value));
          ClearApplies(e1.rings[k], at);
        }
        ClearApplies(e1.rings[k], None);
      }
    }
  }

  lemma ClearApplies(r: Ring, at: Option<int>)
    requires RingOk(r)
    ensures ClearedRing(r, at) == if at.Some? then Apply(r, OpClear(at.value)) else r
  {
    hide EndSpan;
    RingFilled(r);
  }

  lemma {:induction false} PutStaysOnRecord(e: Entry, prior: Option<Entry>, ws: seq<Window>, n: nat, at: Option<int>, k: Key)
    requires RingsOk(e) && n <= |ws| && !Holds(ws, k)
    ensures k in PutUpTo(e, prior, ws, n, at).rings <==> k in e.rings
  {
    hide RingsOk, RingOk, History.Put, IndexOf, Keeps;
    if n > 0 {
      PutStaysOnRecord(e, prior, ws, n - 1, at, k);
    }
  }

  // ----- whole runs of the store

  // The history a credential's window has, live or held.
  function RingHeld(s: Quota, id: string, k: Key): Ring {
    var e := HeldFor(s, id);
    if e.Some? then RingFor(e.value, k) else EMPTY_RING
  }

  // What an event does to the window's history, as operations on its ring.
  function OpsOf(s: Quota, e: Event, id: string, k: Key): seq<Op>
    requires QuotaOk(s)
  {
    match e
    case Fetch(snap) =>
      if snap.authID != id || (id in s.entries && Fails(snap)) then []
      else
        HeldSound(s, id);
        ReadOps(Prior(s, id), snap.windows, |snap.windows|, snap.observedAt, k)
        + if HeldFor(s, id).Some? then SilenceOps(HeldFor(s, id).value, snap.windows, snap.observedAt, k) else []
    case Headers(id', ws, at) => if id' == id then MergeOps(Opening(s, id), ws, |ws|, at, k) else []
    case Refused(id', ws, admitted, at) =>
      if id' != id || at.None? || id !in s.entries then []
      else RefusedOps(s.entries[id].snap.windows, ws, |ws|, if admitted.Some? then admitted.value else at.value, at.value, k)
    case Answered(id', family, admitted, at) =>
      if id' == id && at.Some? && admitted.Some? && id in s.entries && k in s.entries[id].rings && Caps(k, family)
      then [OpServe(admitted.value, at.value)] else []
    case Keep(_) => []
    case Relist(_) => []
  }

  // A listing forgets the histories held for a credential it leaves out.
  predicate Loses(s: Quota, e: Event, id: string) { e.Keep? && id in s.pending && id !in e.keep }

  lemma HeldRing(s: Quota, id: string, k: Key)
    requires QuotaOk(s)
    ensures RingOk(RingHeld(s, id, k)) && ApplyAll(RingHeld(s, id, k), []) == RingHeld(s, id, k)
  {
    hide RingsOk, StampsOk, RingOk, HeldFor;
    HeldSound(s, id);
    EmptySound();
    if HeldFor(s, id).Some? { RingSound(HeldFor(s, id).value, k); }
  }

  lemma FetchRing(s: Quota, snap: Snapshot, id: string, k: Key)
    requires QuotaOk(s) && id != ""
    ensures RingOk(RingHeld(s, id, k)) && RingHeld(PutSnapshot(s, snap), id, k) == ApplyAll(RingHeld(s, id, k), OpsOf(s, Fetch(snap), id, k))
  {
    hide RingsOk, StampsOk, HeldOk, RingOk, Reread, ReadOps, SilenceOps, Apply;
    HeldRing(s, id, k);
    HeldSound(s, id);
    if snap.authID == id && !(id in s.entries && Fails(snap)) {
      RereadApplies(Prior(s, id), HeldFor(s, id), snap, k);
      NoSilence(snap, k);
      var ops := ReadOps(Prior(s, id), snap.windows, |snap.windows|, snap.observedAt, k);
      assert ops + [] == ops;
      SilenceOfHeld(Prior(s, id), HeldFor(s, id), snap, k);
    }
  }

  lemma NoSilence(snap: Snapshot, k: Key)
    ensures forall e: Entry :: k !in e.rings ==> SilenceOps(e, snap.windows, snap.observedAt, k) == []
  {
  }

  lemma SilenceOfHeld(prior: Option<Entry>, held: Option<Entry>, snap: Snapshot, k: Key)
    requires held.Some? ==> RingsOk(held.value)
    ensures SilenceOps(Reopened(prior, held, snap), snap.windows, snap.observedAt, k) ==
            if held.Some? then SilenceOps(held.value, snap.windows, snap.observedAt, k) else []
    ensures RingFor(Reopened(prior, held, snap), k) == if held.Some? then RingFor(held.value, k) else EMPTY_RING
  {
    hide RingsOk, Unscoped, IndexOf;
  }

  lemma OpeningRing(s: Quota, id: string, k: Key)
    requires QuotaOk(s)
    ensures RingFor(Opening(s, id), k) == RingHeld(s, id, k)
  {
    hide RingsOk, StampsOk;
  }

  lemma MergedRing(e: Entry, ws: seq<Window>, at: Option<int>, k: Key)
    requires RingsOk(e)
    ensures RingOk(RingFor(e, k)) && RingFor(Merged(e, ws, at), k) == ApplyAll(RingFor(e, k), MergeOps(e, ws, |ws|, at, k))
  {
    hide RingsOk, RingOk, MergeUpTo, Apply;
    SourcedSound(e);
    MergeApplies(Sourced(e), ws, |ws|, at, k);
    SourcedOps(e, ws, |ws|, at, k);
  }

  lemma SourcedSound(e: Entry)
    requires RingsOk(e)
    ensures RingsOk(Sourced(e))
  {
    hide RingOk;
  }

  lemma {:induction false} SourcedOps(e: Entry, ws: seq<Window>, n: nat, at: Option<int>, k: Key)
    requires n <= |ws|
    ensures MergeOps(Sourced(e), ws, n, at, k) == MergeOps(e, ws, n, at, k)
  {
    if n > 0 {
      SourcedOps(e, ws, n - 1, at, k);
    }
  }

  lemma HeadersRing(s: Quota, id': string, ws: seq<Window>, at: Option<int>, id: string, k: Key)
    requires QuotaOk(s) && id != ""
    ensures RingOk(RingHeld(s, id, k))
    ensures RingHeld(MergeHeaders(s, id', ws, at), id, k) == ApplyAll(RingHeld(s, id, k), OpsOf(s, Headers(id', ws, at), id, k))
  {
    hide RingsOk, StampsOk, HeldOk, RingOk, Merged, Opening, MergeOps, Apply;
    HeldRing(s, id, k);
    NoReadings(Opening(s, id), ws, at, k);
    if id' == id && ws != [] {
      OpeningRing(s, id, k);
      MergedRing(Opening(s, id), ws, at, k);
    }
  }

  lemma NoReadings(e: Entry, ws: seq<Window>, at: Option<int>, k: Key)
    ensures ws == [] ==> MergeOps(e, ws, |ws|, at, k) == []
  {
  }

  lemma SpansRing(s: Quota, e: Event, id: string, k: Key)
    requires QuotaOk(s) && id != "" && (e.Refused? || e.Answered?)
    ensures RingOk(RingHeld(s, id, k)) && RingHeld(Happens(s, e), id, k) == ApplyAll(RingHeld(s, id, k), OpsOf(s, e, id, k))
  {
    hide RingsOk, StampsOk, HeldOk, RingOk, RefuseUpTo, ServeUpTo, RefusedOps, Apply, Caps;
    HeldRing(s, id, k);
    HeldSound(s, id);
    if id in s.entries && e.at.Some? && e.id == id {
      match e
      case Refused(_, ws, admitted, at) =>
        RefusalsApply(s.entries[id], ws, |ws|, if admitted.Some? then admitted.value else at.value, at.value, k);
      case Answered(_, family, admitted, at) =>
        if admitted.Some? { ServedApplies(s.entries[id], family, admitted.value, at.value, k); }
    }
  }

  lemma NoOrder(e: Entry, k: Key)
    requires RingsOk(e) && e.order == []
    ensures RingFor(e, k) == EMPTY_RING
  {
    hide RingOk;
  }

  lemma PrunedHeld(s: Quota, keep: set<string>, id: string)
    requires QuotaOk(s)
    ensures Prior(Prune(s, keep), id) == if id in keep then Prior(s, id) else None
    ensures (id in Prune(s, keep).pending) == ((id in s.pending && id in keep) || (id in s.entries && id !in keep && s.entries[id].order != []))
    ensures id in Prune(s, keep).pending ==> Prune(s, keep).pending[id] == if id in s.pending then s.pending[id] else s.entries[id]
    ensures id in s.entries ==> id !in s.pending
  {
    hide RingsOk, StampsOk, HeldOk, Forgotten, Departed;
  }

  // A listing that leaves a live credential out holds its histories, and one
  // that leaves a held one out forgets them.
  lemma KeptRing(s: Quota, keep: set<string>, id: string, k: Key)
    requires QuotaOk(s)
    ensures RingHeld(Prune(s, keep), id, k) == if Loses(s, Keep(keep), id) then EMPTY_RING else RingHeld(s, id, k)
  {
    hide QuotaOk, RingFor, Prune;
    PrunedHeld(s, keep, id);
    HeldSound(s, id);
    if id in s.entries && s.entries[id].order == [] {
      NoOrder(s.entries[id], k);
    }
  }

  lemma ResumedRing(e: Entry, k: Key)
    requires HeldOk(e)
    ensures RingFor(Resumed(e), k) == RingFor(e, k)
  {
    hide RingsOk, StampsOk;
  }

  lemma RelistedRing(s: Quota, listed: set<string>, id: string, k: Key)
    requires QuotaOk(s)
    ensures RingHeld(Restore(s, listed), id, k) == RingHeld(s, id, k)
  {
    hide RingsOk, RingFor, StampsOk, HeldOk, Resumed;
    if id in s.pending { ResumedRing(s.pending[id], k); }
  }

  lemma StepRing(s: Quota, e: Event, id: string, k: Key)
    requires QuotaOk(s) && id != ""
    ensures RingOk(RingHeld(s, id, k))
    ensures RingHeld(Happens(s, e), id, k) == if Loses(s, e, id) then EMPTY_RING else ApplyAll(RingHeld(s, id, k), OpsOf(s, e, id, k))
  {
    hide QuotaOk, RingOk, RingHeld, OpsOf, PutSnapshot, MergeHeaders, RecordRefusals, MarkServed, Prune, Restore, ApplyAll;
    HeldRing(s, id, k);
    match e
    case Fetch(snap) => FetchRing(s, snap, id, k);
    case Headers(id', ws, at) => HeadersRing(s, id', ws, at, id, k);
    case Refused(_, _, _, _) => SpansRing(s, e, id, k);
    case Answered(_, _, _, _) => SpansRing(s, e, id, k);
    case Keep(keep) => KeptRing(s, keep, id, k); ListedOps(s, e, id, k);
    case Relist(listed) => RelistedRing(s, listed, id, k); ListedOps(s, e, id, k);
  }

  lemma ListedOps(s: Quota, e: Event, id: string, k: Key)
    requires QuotaOk(s) && (e.Keep? || e.Relist?)
    ensures OpsOf(s, e, id, k) == []
  {
    hide QuotaOk;
  }

  // The operations a run makes on a window's history since it was last
  // forgotten.
  function OpsIn(s: Quota, es: seq<Event>, id: string, k: Key): seq<Op>
    requires QuotaOk(s)
  {
    if es == [] then []
    else
      var before := Runs(s, Front(es));
      if Loses(before, Last(es), id) then [] else OpsIn(s, Front(es), id, k) + OpsOf(before, Last(es), id, k)
  }

  // Over any run from the empty store, the history of a window is what the
  // ring's own operations leave, one for each reading, refusal, served request
  // and silence that counts and none besides.
  lemma {:induction false} HistoryIsRun(es: seq<Event>, id: string, k: Key)
    requires id != ""
    ensures QuotaOk(EMPTY) && RingOk(EMPTY_RING)
    ensures RingHeld(Runs(EMPTY, es), id, k) == ApplyAll(EMPTY_RING, OpsIn(EMPTY, es, id, k))
  {
    hide RingOk, RingHeld, Loses, OpsOf, Happens, Apply;
    EmptyOk();
    EmptySound();
    if es == [] {
      NoneHeld(id, k);
    } else {
      var before := Runs(EMPTY, Front(es));
      HistoryIsRun(Front(es), id, k);
      StepRing(before, Last(es), id, k);
      ApplyConcat(EMPTY_RING, OpsIn(EMPTY, Front(es), id, k), OpsOf(before, Last(es), id, k));
    }
  }

  lemma NoneHeld(id: string, k: Key)
    ensures RingHeld(EMPTY, id, k) == EMPTY_RING
  {
  }

  // So every history the store ever holds is a state of a run of the ring, and
  // all that is proved of those runs holds of it.
  lemma HistoryIsReached(es: seq<Event>, id: string, k: Key) returns (states: seq<Ring>)
    requires id != ""
    ensures QuotaOk(EMPTY)
    ensures Run(states, OpsIn(EMPTY, es, id, k)) && Last(states) == RingHeld(Runs(EMPTY, es), id, k)
  {
    hide Run, RingHeld, ApplyAll, OpsIn, Runs;
    HistoryIsRun(es, id, k);
    states := Unrolled(OpsIn(EMPTY, es, id, k));
  }

  lemma {:induction false} Unrolled(ops: seq<Op>) returns (states: seq<Ring>)
    ensures RingOk(EMPTY_RING) && Run(states, ops) && Last(states) == ApplyAll(EMPTY_RING, ops)
  {
    hide RingOk, Apply;
    EmptySound();
    if ops == [] {
      states := [EMPTY_RING];
    } else {
      var before := Unrolled(Front(ops));
      var r := ApplyAll(EMPTY_RING, Front(ops));
      RingFilled(r);
      states := before + [Apply(r, Last(ops))];
    }
  }
}
