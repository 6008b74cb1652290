/** A window of a credential behaves as a register that keeps its newest
    reading, over usage reads and header merges in any order. */
module QuotaRegister {
  import opened Basics
  import opened Windows
  import opened HistoryInvariants
  import opened QuotaTable

  // What the store knows of a window: the instant it was last seen at or found
  // missing, and the utilization it holds, none while a read has left it out.
  datatype Slot = Slot(at: Option<int>, util: Option<Float>)

  function Util(ws: seq<Window>, k: Key): Option<Float> {
    if Holds(ws, k) then Some(ws[IndexOf(ws, k).value].util) else None
  }

  function SlotOf(e: Entry, k: Key): Option<Slot> {
    if k in e.seenAt then Some(Slot(e.seenAt[k], Util(e.snap.windows, k))) else None
  }

  function PriorSlot(prior: Option<Entry>, k: Key): Option<Slot> {
    if prior.Some? then SlotOf(prior.value, k) else None
  }

  // What an event says of a window: a reading of it, a read without it, or a
  // read without it that the store keeps no note of.
  datatype News = Seen(at: Option<int>, util: Float) | Missing(at: Option<int>) | Lost

  // The register after one: an older reading is dropped, a tie goes to the
  // later arrival, and no instant is given up for an earlier one.
  function Hear(slot: Option<Slot>, x: News): Option<Slot> {
    match x
    case Seen(at, util) => if slot.Some? && Later(slot.value.at, at) then slot else Some(Slot(at, Some(util)))
    case Missing(at) => Some(Slot(if slot.Some? && Later(slot.value.at, at) then slot.value.at else at, None))
    case Lost => None
  }

  function HearAll(slot: Option<Slot>, xs: seq<News>): Option<Slot> {
    if xs == [] then slot else Hear(HearAll(slot, Front(xs)), Last(xs))
  }

  // A utilization the register holds is that of a reading no later than which
  // was anything heard since the window was last lost; and all it has heard
  // after it are readings from before it.
  lemma {:induction false} HeldIsNewest(xs: seq<News>) returns (i: nat)
    requires HearAll(None, xs).Some? && HearAll(None, xs).value.util.Some?
    ensures i < |xs| && xs[i].Seen? && HearAll(None, xs).value == Slot(xs[i].at, Some(xs[i].util))
    ensures forall j :: i < j < |xs| ==> xs[j].Seen? && Later(xs[i].at, xs[j].at)
    ensures forall j :: 0 <= j < i && (forall l :: j <= l < i ==> !xs[l].Lost?) ==> !Later(xs[j].at, xs[i].at)
  {
    var p, x := Front(xs), Last(xs);
    var before := HearAll(None, p);
    if before.Some? && Later(before.value.at, x.at) {
      i := HeldIsNewest(p);
      assert forall j :: 0 <= j < |p| ==> xs[j] == p[j];
    } else {
      i := |xs| - 1;
      forall j | 0 <= j < i && (forall l :: j <= l < i ==> !xs[l].Lost?)
        ensures !Later(xs[j].at, x.at)
      {
        forall l | j <= l < |p|
          ensures !p[l].Lost?
        {
          assert p[l] == xs[l];
        }
        InstantCovers(p, j);
        assert p[j] == xs[j];
      }
    }
  }

  // The register's instant is no earlier than anything heard since the window
  // was last lost.
  lemma {:induction false} InstantCovers(xs: seq<News>, j: nat)
    requires j < |xs| && forall l :: j <= l < |xs| ==> !xs[l].Lost?
    ensures HearAll(None, xs).Some? && !Later(xs[j].at, HearAll(None, xs).value.at)
  {
    if j < |xs| - 1 {
      assert forall l :: j <= l < |xs| - 1 ==> Front(xs)[l] == xs[l];
      InstantCovers(Front(xs), j);
    }
  }

  // The instant never decreases while the window is not lost.
  lemma {:induction false} HearKeepsOn(slot: Option<Slot>, xs: seq<News>)
    requires slot.Some? && forall j :: 0 <= j < |xs| ==> !xs[j].Lost?
    ensures HearAll(slot, xs).Some? && !Later(slot.value.at, HearAll(slot, xs).value.at)
  {
    if xs != [] {
      assert forall j :: 0 <= j < |xs| - 1 ==> Front(xs)[j] == xs[j];
      HearKeepsOn(slot, Front(xs));
    }
  }

  lemma {:induction false} HearConcat(slot: Option<Slot>, xs: seq<News>, ys: seq<News>)
    ensures HearAll(slot, xs + ys) == HearAll(HearAll(slot, xs), ys)
  {
    if ys == [] {
      assert xs + ys == xs;
    } else {
      HearConcat(slot, xs, Front(ys));
      assert Front(xs + ys) == xs + Front(ys);
    }
  }

  // ----- distinct windows

  ghost predicate Distinct(ws: seq<Window>) {
    forall i, j :: 0 <= i < j < |ws| ==> KeyOf(ws[i]) != KeyOf(ws[j])
  }

  lemma FirstIndex(ws: seq<Window>, k: Key, i: nat)
    requires i < |ws| && KeyOf(ws[i]) == k && forall j :: 0 <= j < i ==> KeyOf(ws[j]) != k
    ensures IndexOf(ws, k) == Some(i)
  {
  }

  lemma NoIndex(ws: seq<Window>, k: Key)
    requires forall j :: 0 <= j < |ws| ==> KeyOf(ws[j]) != k
    ensures IndexOf(ws, k) == None
  {
  }

  // Two lists with the same keys find a key at the same place.
  lemma SameKeysSameIndex(ws: seq<Window>, vs: seq<Window>, k: Key)
    requires |ws| <= |vs| && (forall i :: 0 <= i < |ws| ==> KeyOf(vs[i]) == KeyOf(ws[i]))
    requires forall i :: |ws| <= i < |vs| ==> KeyOf(vs[i]) != k
    ensures IndexOf(vs, k) == IndexOf(ws, k)
  {
    var at := IndexOf(ws, k);
    if at.Some? {
      FirstIndex(vs, k, at.value);
    } else {
      NoIndex(vs, k);
    }
  }

  lemma DistinctMerged(ws: seq<Window>, w: Window)
    requires Distinct(ws)
    ensures Distinct(MergedWindows(ws, w))
  {
  }

  lemma {:induction false} DistinctMergeUpTo(e: Entry, ws: seq<Window>, n: nat, at: Option<int>)
    requires RingsOk(e) && n <= |ws| && Distinct(e.snap.windows)
    ensures Distinct(MergeUpTo(e, ws, n, at).e.snap.windows)
  {
    hide RingsOk, Distinct, MergedWindows, Observe, Late;
    if n > 0 {
      DistinctMergeUpTo(e, ws, n - 1, at);
      DistinctMerged(MergeUpTo(e, ws, n - 1, at).e.snap.windows, ws[n - 1]);
    }
  }

  // However its readings repeat a window, a merge keeps the stored ones
  // distinct.
  lemma DistinctMerge(e: Entry, ws: seq<Window>, at: Option<int>)
    requires RingsOk(e) && Distinct(e.snap.windows)
    ensures Distinct(Merged(e, ws, at).snap.windows)
  {
    hide RingOk, MergeUpTo;
    DistinctMergeUpTo(Sourced(e), ws, |ws|, at);
  }

  // ----- one window of one merge

  lemma MergedWindowsUtil(ws: seq<Window>, w: Window, k: Key)
    ensures Util(MergedWindows(ws, w), k) == if KeyOf(w) == k then Some(w.util) else Util(ws, k)
  {
    hide IndexOf;
    var out, at := MergedWindows(ws, w), IndexOf(ws, KeyOf(w));
    if at.Some? || KeyOf(w) != k {
      SameKeysSameIndex(ws, out, k);
    } else {
      FirstIndex(out, k, |ws|);
    }
  }

  lemma MergeOneSlot(m: Merging, w: Window, at: Option<int>, k: Key)
    requires RingsOk(m.e)
    ensures SlotOf(MergeOne(m, w, at).e, k) == if KeyOf(w) == k then Hear(SlotOf(m.e, k), Seen(at, w.util)) else SlotOf(m.e, k)
  {
    hide RingsOk, Observe, MergedWindows, Util;
    MergedWindowsUtil(m.e.snap.windows, w, k);
  }

  // The readings of a window among the first n of a merge.
  function Carried(ws: seq<Window>, n: nat, at: Option<int>, k: Key): seq<News>
    requires n <= |ws|
  {
    if n == 0 then []
    else if KeyOf(ws[n - 1]) == k then Carried(ws, n - 1, at, k) + [Seen(at, ws[n - 1].util)]
    else Carried(ws, n - 1, at, k)
  }

  lemma HearSnoc(slot: Option<Slot>, xs: seq<News>, x: News)
    ensures HearAll(slot, xs + [x]) == Hear(HearAll(slot, xs), x)
  {
    assert Front(xs + [x]) == xs;
  }

  lemma {:induction false} MergeUpToSlot(e: Entry, ws: seq<Window>, n: nat, at: Option<int>, k: Key)
    requires RingsOk(e) && n <= |ws|
    ensures SlotOf(MergeUpTo(e, ws, n, at).e, k) == HearAll(SlotOf(e, k), Carried(ws, n, at, k))
  {
    hide RingsOk, MergeOne, SlotOf, Hear;
    if n > 0 {
      MergeUpToSlot(e, ws, n - 1, at, k);
      MergeOneSlot(MergeUpTo(e, ws, n - 1, at), ws[n - 1], at, k);
      HearSnoc(SlotOf(e, k), Carried(ws, n - 1, at, k), Seen(at, ws[n - 1].util));
    }
  }

  lemma OnlyActiveUtil(ws: seq<Window>, key: Key, k: Key)
    ensures Util(OnlyActive(ws, key), k) == Util(ws, k)
  {
    hide IndexOf, OnlyActive;
    SameKeysSameIndex(ws, OnlyActive(ws, key), k);
  }

  // A merge folds its readings of a window into the register, in order.
  lemma MergedSlot(e: Entry, ws: seq<Window>, at: Option<int>, k: Key)
    requires RingsOk(e)
    ensures SlotOf(Merged(e, ws, at), k) == HearAll(SlotOf(e, k), Carried(ws, |ws|, at, k))
  {
    hide RingOk, MergeUpTo, Util, OnlyActive;
    MergeUpToSlot(Sourced(e), ws, |ws|, at, k);
    var m := MergeUpTo(Sourced(e), ws, |ws|, at);
    if m.active.Some? {
      OnlyActiveUtil(m.e.snap.windows, m.active.value, k);
    }
  }

  // ----- one window of one usage read

  // A window a read carries: the store's value where it holds one seen later.
  function Carry(slot: Option<Slot>, at: Option<int>, util: Float): Option<Slot> {
    if slot.Some? && slot.value.util.Some? && Later(slot.value.at, at) then slot else Some(Slot(at, Some(util)))
  }

  lemma AppendedUtil(ws: seq<Window>, w: Window, k: Key)
    requires !Holds(ws, KeyOf(w))
    ensures Util(ws + [w], k) == if KeyOf(w) == k then Some(w.util) else Util(ws, k)
  {
    hide IndexOf;
    if KeyOf(w) == k {
      FirstIndex(ws + [w], k, |ws|);
    } else {
      SameKeysSameIndex(ws, ws + [w], k);
    }
  }

  lemma PutWindowSlot(e: Entry, prior: Option<Entry>, w: Window, at: Option<int>, k: Key)
    requires RingsOk(e) && !Holds(e.snap.windows, KeyOf(w))
    ensures SlotOf(PutWindow(e, prior, w, at), k) == if KeyOf(w) == k then Carry(PriorSlot(prior, k), at, w.util) else SlotOf(e, k)
  {
    hide RingsOk, Observe, IndexOf;
    PutWindowKeys(e, prior, w, at);
    AppendedUtil(e.snap.windows, Last(PutWindow(e, prior, w, at).snap.windows), k);
  }

  lemma PutWindowKeys(e: Entry, prior: Option<Entry>, w: Window, at: Option<int>)
    requires RingsOk(e)
    ensures var ws := PutWindow(e, prior, w, at).snap.windows;
            |ws| == |e.snap.windows| + 1 && ws == e.snap.windows + [Last(ws)] && KeyOf(Last(ws)) == KeyOf(w)
    ensures forall k :: k in PutWindow(e, prior, w, at).order <==> k in e.order || (k == KeyOf(w) && !Keeps(prior, w, at))
  {
    hide RingOk, IndexOf;
  }

  // The windows a read leaves are those it carried, in its order.
  lemma {:induction false} PutUpToKeys(e: Entry, prior: Option<Entry>, ws: seq<Window>, n: nat, at: Option<int>)
    requires RingsOk(e) && e.snap.windows == [] && n <= |ws|
    ensures var vs := PutUpTo(e, prior, ws, n, at).snap.windows;
            |vs| == n && forall i :: 0 <= i < n ==> KeyOf(vs[i]) == KeyOf(ws[i])
  {
    hide RingsOk, PutWindow;
    if n > 0 {
      PutUpToKeys(e, prior, ws, n - 1, at);
      PutWindowKeys(PutUpTo(e, prior, ws, n - 1, at), prior, ws[n - 1], at);
    }
  }

  lemma {:induction false} PutUpToOther(e: Entry, prior: Option<Entry>, ws: seq<Window>, n: nat, at: Option<int>, k: Key)
    requires RingsOk(e) && e.snap.windows == [] && n <= |ws| && Distinct(ws)
    requires forall i :: 0 <= i < n ==> KeyOf(ws[i]) != k
    ensures SlotOf(PutUpTo(e, prior, ws, n, at), k) == SlotOf(e, k)
    ensures k in PutUpTo(e, prior, ws, n, at).order <==> k in e.order
  {
    hide RingsOk, PutWindow, SlotOf, Carry;
    if n > 0 {
      var e1 := PutUpTo(e, prior, ws, n - 1, at);
      PutUpToOther(e, prior, ws, n - 1, at, k);
      PutUpToFresh(e, prior, ws, n - 1, at);
      PutWindowSlot(e1, prior, ws[n - 1], at, k);
      PutWindowKeys(e1, prior, ws[n - 1], at);
    }
  }

  // The next window of a read of distinct windows is not among those before.
  lemma PutUpToFresh(e: Entry, prior: Option<Entry>, ws: seq<Window>, n: nat, at: Option<int>)
    requires RingsOk(e) && e.snap.windows == [] && n < |ws| && Distinct(ws)
    ensures !Holds(PutUpTo(e, prior, ws, n, at).snap.windows, KeyOf(ws[n]))
  {
    hide RingsOk, PutUpTo, IndexOf;
    PutUpToKeys(e, prior, ws, n, at);
    NoIndex(PutUpTo(e, prior, ws, n, at).snap.windows, KeyOf(ws[n]));
  }

  // A read of distinct windows leaves each it carries at the store's value
  // where it holds one seen later, at the read's otherwise.
  lemma {:induction false} PutUpToSlot(e: Entry, prior: Option<Entry>, ws: seq<Window>, n: nat, i: nat, at: Option<int>)
    requires RingsOk(e) && e.snap.windows == [] && i < n <= |ws| && Distinct(ws)
    ensures SlotOf(PutUpTo(e, prior, ws, n, at), KeyOf(ws[i])) == Carry(PriorSlot(prior, KeyOf(ws[i])), at, ws[i].util)
  {
    hide RingsOk, PutWindow, SlotOf, Carry, PriorSlot;
    PutUpToFresh(e, prior, ws, n - 1, at);
    PutWindowSlot(PutUpTo(e, prior, ws, n - 1, at), prior, ws[n - 1], at, KeyOf(ws[i]));
    if i < n - 1 {
      PutUpToSlot(e, prior, ws, n - 1, i, at);
    }
  }

  lemma UnscopedByKeys(ws: seq<Window>, vs: seq<Window>)
    requires |ws| == |vs| && forall i :: 0 <= i < |ws| ==> KeyOf(vs[i]) == KeyOf(ws[i])
    ensures Unscoped(ws) <==> Unscoped(vs)
  {
    if w :| w in ws && w.scope == "" {
      var i :| 0 <= i < |ws| && ws[i] == w;
      assert vs[i] in vs && KeyOf(vs[i]) == KeyOf(w);
    }
    if v :| v in vs && v.scope == "" {
      var i :| 0 <= i < |vs| && vs[i] == v;
      assert ws[i] in ws && KeyOf(ws[i]) == KeyOf(v);
    }
  }

  // ----- the windows a read leaves out

  // Whether the store keeps note of a window a read left out.
  predicate Noted(held: Option<Entry>, snap: Snapshot, k: Key) {
    Unscoped(snap.windows) && k.scope == "" && held.Some? && k in held.value.order
  }

  lemma OmitWindowSlot(e: Entry, prior: Option<Entry>, read: seq<Key>, key: Key, at: Option<int>, k: Key)
    requires RingsOk(e) && key in e.rings && !Holds(e.snap.windows, k)
    ensures SlotOf(OmitWindow(e, prior, read, key, at), k) ==
            if key == k && k.scope == "" then Hear(PriorSlot(prior, k), Missing(at)) else SlotOf(e, k)
  {
    hide RingsOk, ClearedRing, IndexOf;
  }

  lemma {:induction false} OmitUpToSlot(e: Entry, prior: Option<Entry>, read: seq<Key>, n: nat, at: Option<int>, k: Key)
    requires RingsOk(e) && n <= |e.order| && !Holds(e.snap.windows, k)
    ensures SlotOf(OmitUpTo(e, prior, read, n, at), k) ==
            if k in e.order[..n] && k.scope == "" then Hear(PriorSlot(prior, k), Missing(at)) else SlotOf(e, k)
  {
    hide RingsOk, OmitWindow, SlotOf, Hear, PriorSlot, Holds;
    if n > 0 {
      OnRecord(e, n - 1);
      OmitUpToSlot(e, prior, read, n - 1, at, k);
      OmitWindowSlot(OmitUpTo(e, prior, read, n - 1, at), prior, read, e.order[n - 1], at, k);
      assert e.order[..n] == e.order[..n - 1] + [e.order[n - 1]];
    }
  }

  lemma NothingHeld(e: Entry, k: Key)
    ensures e.seenAt == map[] ==> SlotOf(e, k).None?
    ensures e.snap.windows == [] ==> !Holds(e.snap.windows, k)
  {
  }

  lemma CarriedSlot(e: Entry, prior: Option<Entry>, read: seq<Key>, at: Option<int>, k: Key)
    requires RingsOk(e) && Holds(e.snap.windows, k)
    ensures SlotOf(OmitUpTo(e, prior, read, |e.order|, at), k) == SlotOf(e, k)
  {
    hide RingsOk, OmitUpTo;
    OmitUpToSeen(e, prior, read, |e.order|, at, k);
  }

  lemma {:induction false} RereadCarries(prior: Option<Entry>, held: Option<Entry>, snap: Snapshot, i: nat)
    requires (held.Some? ==> RingsOk(held.value)) && Distinct(snap.windows) && i < |snap.windows|
    ensures var k := KeyOf(snap.windows[i]);
            SlotOf(Reread(prior, held, snap), k) == Carry(PriorSlot(prior, k), snap.observedAt, snap.windows[i].util)
  {
    hide RingsOk, PutUpTo, OmitUpTo, IndexOf, Unscoped, Reopened, Carry, Distinct, Util, PriorSlot;
    var ws, at, e0 := snap.windows, snap.observedAt, Reopened(prior, held, snap);
    var e1 := PutUpTo(e0, prior, ws, |ws|, at);
    PutUpToSlot(e0, prior, ws, |ws|, i, at);
    PutUpToKeys(e0, prior, ws, |ws|, at);
    assert KeyOf(e1.snap.windows[i]) == KeyOf(ws[i]);
    CarriedSlot(e1, prior, e0.read, at, KeyOf(ws[i]));
  }

  lemma RereadOmits(prior: Option<Entry>, held: Option<Entry>, snap: Snapshot, k: Key)
    requires (held.Some? ==> RingsOk(held.value)) && Distinct(snap.windows) && !Holds(snap.windows, k)
    ensures SlotOf(Reread(prior, held, snap), k) ==
            if Noted(held, snap, k) then Hear(PriorSlot(prior, k), Missing(snap.observedAt)) else None
  {
    hide RingsOk, PutUpTo, OmitUpTo, IndexOf, Unscoped, Hear, Distinct, Util, PriorSlot;
    var ws, at, e0 := snap.windows, snap.observedAt, Reopened(prior, held, snap);
    var e1 := PutUpTo(e0, prior, ws, |ws|, at);
    NothingHeld(e0, k);
    PutUpToOther(e0, prior, ws, |ws|, at, k);
    PutUpToKeys(e0, prior, ws, |ws|, at);
    UnscopedByKeys(ws, e1.snap.windows);
    NoIndex(e1.snap.windows, k);
    OmitUpToSlot(e1, prior, e0.read, |e1.order|, at, k);
    assert e1.order[..|e1.order|] == e1.order;
  }

  // ----- where a read is not heard as a reading

  // A read carries again a window the store has left out since.
  ghost predicate BringsBack(prior: Option<Entry>, snap: Snapshot, k: Key) {
    Holds(snap.windows, k) && prior.Some? && !Holds(prior.value.snap.windows, k) && Later(SeenAt(prior.value, k), snap.observedAt)
  }

  function NewsOfRead(held: Option<Entry>, snap: Snapshot, k: Key): News {
    if Holds(snap.windows, k) then Seen(snap.observedAt, snap.windows[IndexOf(snap.windows, k).value].util)
    else if Noted(held, snap, k) then Missing(snap.observedAt) else Lost
  }

  // A read of distinct windows is heard as its news of a window exactly when
  // it does not bring the window back from before it was left out.
  lemma RereadHears(prior: Option<Entry>, held: Option<Entry>, snap: Snapshot, k: Key)
    requires (held.Some? ==> RingsOk(held.value)) && Distinct(snap.windows)
    ensures SlotOf(Reread(prior, held, snap), k) == Hear(PriorSlot(prior, k), NewsOfRead(held, snap, k)) <==> !BringsBack(prior, snap, k)
  {
    hide Reread, RingsOk, Distinct, IndexOf, Noted;
    if Holds(snap.windows, k) {
      RereadCarries(prior, held, snap, IndexOf(snap.windows, k).value);
    } else {
      RereadOmits(prior, held, snap, k);
    }
  }

  // The seen instant of a window a read carries falls exactly there.
  lemma SeenFalls(prior: Entry, snap: Snapshot, k: Key)
    requires RingsOk(prior) && Distinct(snap.windows) && Holds(snap.windows, k)
    ensures Later(SeenAt(prior, k), SeenAt(Reread(Some(prior), Some(prior), snap), k)) <==>
            Later(SeenAt(prior, k), snap.observedAt) && !Holds(prior.snap.windows, k)
  {
    hide Reread, RingsOk, Distinct, IndexOf;
    RereadCarries(Some(prior), Some(prior), snap, IndexOf(snap.windows, k).value);
  }
}
