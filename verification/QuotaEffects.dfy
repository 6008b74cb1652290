/** What one usage read or header merge does to the windows it carries, the
    ones it does not, and their histories. */
module QuotaEffects {
  import opened Basics
  import opened Windows
  import opened History
  import opened HistoryInvariants
  import opened QuotaTable
  import opened QuotaRegister
  import opened HistorySpans

  // ----- header merges

  // Whether a reading counts is settled before the merge: its own readings
  // make none of it late.
  lemma {:induction false} LateIsSettled(e: Entry, ws: seq<Window>, n: nat, w: Window, at: Option<int>)
    requires RingsOk(e) && n <= |ws|
    ensures Late(MergeUpTo(e, ws, n, at).e, w, at) == Late(e, w, at)
  {
    hide RingsOk, Observe, MergedWindows;
    if n > 0 {
      LateIsSettled(e, ws, n - 1, w, at);
    }
  }

  // The last of the first n readings that counts and names its window active.
  function LastActive(e: Entry, ws: seq<Window>, n: nat, at: Option<int>): Option<Key>
    requires n <= |ws|
  {
    if n == 0 then None
    else if ws[n - 1].active && !Late(e, ws[n - 1], at) then Some(KeyOf(ws[n - 1]))
    else LastActive(e, ws, n - 1, at)
  }

  lemma {:induction false} ActiveIsLast(e: Entry, ws: seq<Window>, n: nat, at: Option<int>)
    requires RingsOk(e) && n <= |ws|
    ensures MergeUpTo(e, ws, n, at).active == LastActive(e, ws, n, at)
  {
    hide RingsOk, Late, Observe, MergedWindows;
    if n > 0 {
      ActiveIsLast(e, ws, n - 1, at);
      LateIsSettled(e, ws, n - 1, ws[n - 1], at);
    }
  }

  // A merge in which a reading that counts names its window active leaves no
  // other window active.
  lemma OneActive(e: Entry, ws: seq<Window>, at: Option<int>)
    requires RingsOk(e) && LastActive(e, ws, |ws|, at).Some?
    ensures forall i :: 0 <= i < |Merged(e, ws, at).snap.windows| && Merged(e, ws, at).snap.windows[i].active ==>
              KeyOf(Merged(e, ws, at).snap.windows[i]) == LastActive(e, ws, |ws|, at).value
  {
    hide RingOk, Late, MergeUpTo;
    ActiveIsLast(Sourced(e), ws, |ws|, at);
    SourcedActive(e, ws, |ws|, at);
  }

  lemma {:induction false} SourcedActive(e: Entry, ws: seq<Window>, n: nat, at: Option<int>)
    requires n <= |ws|
    ensures LastActive(Sourced(e), ws, n, at) == LastActive(e, ws, n, at)
  {
    if n > 0 {
      SourcedActive(e, ws, n - 1, at);
    }
  }

  // The stored window with a key.
  function Stored(e: Entry, k: Key): Option<Window> {
    if Holds(e.snap.windows, k) then Some(e.snap.windows[IndexOf(e.snap.windows, k).value]) else None
  }

  lemma StoredMerged(ws: seq<Window>, w: Window, k: Key)
    requires Holds(ws, k)
    ensures Holds(MergedWindows(ws, w), k)
    ensures MergedWindows(ws, w)[IndexOf(MergedWindows(ws, w), k).value] ==
            if KeyOf(w) == k then MergeReading(ws[IndexOf(ws, k).value], w) else ws[IndexOf(ws, k).value]
  {
    hide MergeReading, IndexOf;
    var out := MergedWindows(ws, w);
    SameKeysSameIndex(ws, out, k);
  }

  predicate SaysNothing(w: Window) { w.status == "" && w.severity == "" }

  // Readings that name no status and no severity for a window leave the
  // verdict an endpoint read established.
  lemma {:induction false} MergeUpToVerdict(e: Entry, ws: seq<Window>, n: nat, at: Option<int>, k: Key)
    requires RingsOk(e) && n <= |ws| && Stored(e, k).Some?
    requires forall i :: 0 <= i < n && KeyOf(ws[i]) == k ==> SaysNothing(ws[i])
    ensures var got := Stored(MergeUpTo(e, ws, n, at).e, k);
            got.Some? && got.value.status == Stored(e, k).value.status && got.value.severity == Stored(e, k).value.severity
  {
    hide RingsOk, Observe, MergedWindows, IndexOf, Late;
    if n > 0 {
      MergeUpToVerdict(e, ws, n - 1, at, k);
      StoredMerged(MergeUpTo(e, ws, n - 1, at).e.snap.windows, ws[n - 1], k);
    }
  }

  lemma MergeKeepsVerdict(e: Entry, ws: seq<Window>, at: Option<int>, k: Key)
    requires RingsOk(e) && Stored(e, k).Some?
    requires forall i :: 0 <= i < |ws| && KeyOf(ws[i]) == k ==> SaysNothing(ws[i])
    ensures var got := Stored(Merged(e, ws, at), k);
            got.Some? && Blocking(got.value) == Blocking(Stored(e, k).value) && got.value.severity == Stored(e, k).value.severity
  {
    hide RingOk, MergeUpTo, IndexOf;
    MergeUpToVerdict(Sourced(e), ws, |ws|, at, k);
    var m := MergeUpTo(Sourced(e), ws, |ws|, at);
    if m.active.Some? {
      SameKeysSameIndex(m.e.snap.windows, OnlyActive(m.e.snap.windows, m.active.value), k);
    }
  }

  lemma ObserveOther(e: Entry, at: Option<int>, w: Window, k: Key)
    requires RingsOk(e) && KeyOf(w) != k
    ensures RingFor(Observe(e, at, w), k) == RingFor(e, k)
  {
    hide RingsOk, RingOk, History.Put;
  }

  // A merge records nothing in a window's history but its own readings that
  // count and that the headers stated.
  lemma {:induction false} MergeLeavesRing(e: Entry, ws: seq<Window>, n: nat, at: Option<int>, k: Key)
    requires RingsOk(e) && n <= |ws|
    requires forall i :: 0 <= i < n && KeyOf(ws[i]) == k ==> ws[i].derived || Late(e, ws[i], at)
    ensures RingFor(MergeUpTo(e, ws, n, at).e, k) == RingFor(e, k)
  {
    hide RingsOk, Observe, MergedWindows, Late;
    if n > 0 {
      var m, w := MergeUpTo(e, ws, n - 1, at), ws[n - 1];
      MergeLeavesRing(e, ws, n - 1, at, k);
      LateIsSettled(e, ws, n - 1, w, at);
      if KeyOf(w) != k {
        ObserveOther(m.e, at, w, k);
      }
    }
  }

  // ----- usage reads

  // What a read's windows do to a history: one of another window, or one the
  // store has seen since, leaves it.
  lemma {:induction false} PutLeavesRing(e: Entry, prior: Option<Entry>, ws: seq<Window>, n: nat, at: Option<int>, k: Key)
    requires RingsOk(e) && n <= |ws|
    requires forall i :: 0 <= i < n && KeyOf(ws[i]) == k ==> Keeps(prior, ws[i], at)
    ensures RingFor(PutUpTo(e, prior, ws, n, at), k) == RingFor(e, k)
  {
    hide RingsOk, Observe, Keeps;
    if n > 0 {
      PutLeavesRing(e, prior, ws, n - 1, at, k);
      if KeyOf(ws[n - 1]) != k {
        ObserveOther(PutUpTo(e, prior, ws, n - 1, at), at, ws[n - 1], k);
      }
    }
  }

  lemma OmitWindowRing(e: Entry, prior: Option<Entry>, read: seq<Key>, key: Key, at: Option<int>, k: Key)
    requires RingsOk(e) && key in e.rings && k in e.rings
    ensures OmitWindow(e, prior, read, key, at).rings[k] ==
            if key == k && k.scope == "" && !Holds(e.snap.windows, k) && k in read then ClearedRing(e.rings[k], at) else e.rings[k]
  {
    hide RingsOk, ClearedRing, Holds;
  }

  lemma InOrder(e: Entry, n: nat, k: Key)
    requires RingsOk(e) && 0 < n <= |e.order|
    ensures e.order[n - 1] in e.rings && e.order[n - 1] !in e.order[..n - 1]
    ensures k in e.order[..n] <==> k in e.order[..n - 1] || k == e.order[n - 1]
  {
    hide RingOk;
    assert e.order[..n] == e.order[..n - 1] + [e.order[n - 1]];
  }

  // What a read's silence does to a history, once its place in the order has
  // passed.
  lemma {:induction false} OmitUpToRing(e: Entry, prior: Option<Entry>, read: seq<Key>, n: nat, at: Option<int>, k: Key)
    requires RingsOk(e) && n <= |e.order| && k in e.rings
    ensures OmitUpTo(e, prior, read, n, at).rings[k] ==
            if k in e.order[..n] && k.scope == "" && !Holds(e.snap.windows, k) && k in read
            then ClearedRing(e.rings[k], at) else e.rings[k]
  {
    hide RingsOk, ClearedRing, Holds, OmitWindow;
    if n > 0 {
      InOrder(e, n, k);
      var e1 := OmitUpTo(e, prior, read, n - 1, at);
      OmitUpToRing(e, prior, read, n - 1, at, k);
      OmitWindowRing(e1, prior, read, e.order[n - 1], at, k);
    }
  }

  // A window on record that a read does not carry: its history is kept, and
  // its ongoing span ends as cleared exactly when the read reports an unscoped
  // window, the window is unscoped too and the previous such read reported it.
  lemma OmittedRing(prior: Option<Entry>, held: Entry, snap: Snapshot, k: Key)
    requires RingsOk(held) && k in held.rings && !Holds(snap.windows, k)
    ensures RingFor(Reread(prior, Some(held), snap), k) ==
            if Unscoped(Reread(prior, Some(held), snap).snap.windows) && k.scope == "" && k in held.read
            then ClearedRing(held.rings[k], snap.observedAt) else held.rings[k]
  {
    hide PutUpTo, OmitUpTo, Unscoped, IndexOf, ClearedRing, RingOk;
    var ws, at, e0 := snap.windows, snap.observedAt, Reopened(prior, Some(held), snap);
    var e1 := PutUpTo(e0, prior, ws, |ws|, at);
    PutLeavesRing(e0, prior, ws, |ws|, at, k);
    PutKeys(e0, prior, ws, |ws|, at, k);
    if Unscoped(e1.snap.windows) {
      OmitUpToRing(e1, prior, e0.read, |e1.order|, at, k);
      assert e1.order[..|e1.order|] == e1.order;
    }
  }

  lemma {:induction false} PutKeys(e: Entry, prior: Option<Entry>, ws: seq<Window>, n: nat, at: Option<int>, k: Key)
    requires RingsOk(e) && n <= |ws| && e.snap.windows == [] && k in e.rings && !Holds(ws, k)
    ensures k in PutUpTo(e, prior, ws, n, at).rings && !Holds(PutUpTo(e, prior, ws, n, at).snap.windows, k)
  {
    hide RingsOk, RingOk, History.Put, IndexOf;
    if n > 0 {
      PutKeys(e, prior, ws, n - 1, at, k);
      var e1 := PutUpTo(e, prior, ws, n - 1, at);
      var e' := PutWindow(e1, prior, ws[n - 1], at);
      NoIndex(e'.snap.windows, k);
    }
  }

  // ----- refusals and served requests

  lemma RefuseOneOther(e: Entry, w: Window, admitted: int, at: int, k: Key)
    requires RingsOk(e) && KeyOf(w) != k
    ensures RingFor(RefuseOne(e, w, admitted, at).0, k) == RingFor(e, k)
  {
    hide RingsOk, RingOk, Refuse, RefusedUntil;
  }

  lemma {:induction false} RefuseUpToOthers(e: Entry, ws: seq<Window>, n: nat, admitted: int, at: int, k: Key)
    requires RingsOk(e) && n <= |ws| && forall i :: 0 <= i < n ==> KeyOf(ws[i]) != k
    ensures RingFor(RefuseUpTo(e, ws, n, admitted, at).0, k) == RingFor(e, k)
  {
    hide RingsOk, RefuseOne, RingFor;
    if n > 0 {
      RefuseUpToOthers(e, ws, n - 1, admitted, at, k);
      RefuseOneOther(RefuseUpTo(e, ws, n - 1, admitted, at).0, ws[n - 1], admitted, at, k);
    }
  }

  // The spans of a window after the readings of one refused request: those a
  // refusal of it alone leaves, and untouched where its reading is no refusal.
  lemma {:induction false} RefusedSpans(e: Entry, ws: seq<Window>, n: nat, i: nat, admitted: int, at: int)
    requires RingsOk(e) && Distinct(ws) && i < n <= |ws|
    ensures var k, r := KeyOf(ws[i]), RingFor(e, KeyOf(ws[i]));
            var until := RefusedUntil(ws[i], e.snap.windows, at);
            var r' := RingFor(RefuseUpTo(e, ws, n, admitted, at).0, k);
            r'.spans.locks == if Blocking(ws[i]) && until.Some? then Refuse(r.spans, admitted, at, until.value, Oldest(r.track.cycles)).0.locks
                              else r.spans.locks
  {
    hide RingsOk, RefusedUntil, Refuse, RefuseOne, RingFor;
    var e1 := RefuseUpTo(e, ws, n - 1, admitted, at).0;
    if i < n - 1 {
      RefusedSpans(e, ws, n - 1, i, admitted, at);
      RefuseOneOther(e1, ws[n - 1], admitted, at, KeyOf(ws[i]));
    } else {
      RefuseUpToOthers(e, ws, n - 1, admitted, at, KeyOf(ws[i]));
      RefuseOneSpans(e1, ws[i], admitted, at);
    }
  }

  lemma RefuseOneSpans(e: Entry, w: Window, admitted: int, at: int)
    requires RingsOk(e)
    ensures var r, until := RingFor(e, KeyOf(w)), RefusedUntil(w, e.snap.windows, at);
            RingFor(RefuseOne(e, w, admitted, at).0, KeyOf(w)).spans.locks ==
            if Blocking(w) && until.Some? then Refuse(r.spans, admitted, at, until.value, Oldest(r.track.cycles)).0.locks else r.spans.locks
  {
    hide RingOk, RefusedUntil;
  }

  // Every window a refused request's readings report as rejected has the
  // refusal inside its newest span, whichever windows come with it, unless the
  // refusal reaches back into an older span or ended before the oldest sample.
  lemma RefusalsReach(e: Entry, ws: seq<Window>, i: nat, admitted: int, at: int)
    requires RingsOk(e) && Distinct(ws) && i < |ws| && Blocking(ws[i])
    requires RefusedUntil(ws[i], e.snap.windows, at).Some?
    requires Truncate(at) < Truncate(RefusedUntil(ws[i], e.snap.windows, at).value)
    requires After(admitted, RingFor(e, KeyOf(ws[i])).spans.served)
    ensures var until, r := RefusedUntil(ws[i], e.snap.windows, at).value, RingFor(e, KeyOf(ws[i]));
            var n, oldest := |r.spans.locks|, Oldest(r.track.cycles);
            Covers(RingFor(RefuseUpTo(e, ws, |ws|, admitted, at).0, KeyOf(ws[i])).spans.locks, Truncate(at)) <==>
            if n == 0 || Truncate(at) >= Last(r.spans.locks).to then oldest.None? || oldest.value <= Truncate(until)
            else n == 1 || r.spans.locks[n - 2].to <= Truncate(at)
  {
    hide RefusedUntil, RefuseUpTo, Covers, Truncate;
    var until, r := RefusedUntil(ws[i], e.snap.windows, at).value, RingFor(e, KeyOf(ws[i]));
    SoundRing(e, KeyOf(ws[i]));
    RefusedSpans(e, ws, |ws|, i, admitted, at);
    RefusalCovered(r.spans, admitted, at, until, Oldest(r.track.cycles));
  }

  lemma SoundRing(e: Entry, k: Key)
    requires RingsOk(e)
    ensures SpansOk(RingFor(e, k).spans)
  {
  }

  lemma ServeOneRing(e: Entry, key: Key, family: string, admitted: int, at: int, k: Key)
    requires RingsOk(e) && key in e.rings && k in e.rings
    ensures var r, r' := e.rings[k], ServeOne(e, key, family, admitted, at).0.rings[k];
            r' == if key == k && Caps(k, family) then r.(spans := Serve(r.spans, admitted, at).0) else r
  {
    hide RingsOk, RingOk, Serve, Caps;
  }

  // A served request reaches every window that caps its family, once, and no
  // other.
  lemma {:induction false} ServeReaches(e: Entry, n: nat, family: string, admitted: int, at: int, k: Key)
    requires RingsOk(e) && n <= |e.order| && k in e.rings
    ensures var r, r' := e.rings[k], ServeUpTo(e, n, family, admitted, at).0.rings[k];
            r' == if k in e.order[..n] && Caps(k, family) then r.(spans := Serve(r.spans, admitted, at).0) else r
  {
    hide RingsOk, Serve, Caps, ServeOne;
    if n > 0 {
      InOrder(e, n, k);
      ServeReaches(e, n - 1, family, admitted, at, k);
      ServeOneRing(ServeUpTo(e, n - 1, family, admitted, at).0, e.order[n - 1], family, admitted, at, k);
    }
  }

  // ----- the snapshot a read or a merge leaves

  // The window a read leaves for one it carries: the store's own where it has
  // seen that window since, whole, and the read's otherwise.
  function Standing(prior: Option<Entry>, w: Window, at: Option<int>): Window {
    if prior.Some? && Later(SeenAt(prior.value, KeyOf(w)), at) && Stored(prior.value, KeyOf(w)).Some?
    then Stored(prior.value, KeyOf(w)).value else w
  }

  // The instant that window was seen at.
  function StandsAt(prior: Option<Entry>, w: Window, at: Option<int>): Option<int> {
    if Keeps(prior, w, at) then SeenAt(prior.value, KeyOf(w)) else at
  }

  lemma PutWindowStands(e: Entry, prior: Option<Entry>, w: Window, at: Option<int>)
    requires RingsOk(e)
    ensures var t := StandsAt(prior, w, at);
            PutWindow(e, prior, w, at).snap ==
            e.snap.(windows := e.snap.windows + [Standing(prior, w, at)], observedAt := if Later(t, e.snap.observedAt) then t else e.snap.observedAt)
  {
    hide RingsOk, RingOk, Observe, IndexOf;
  }

  lemma {:induction false} PutStands(e: Entry, prior: Option<Entry>, ws: seq<Window>, n: nat, at: Option<int>)
    requires RingsOk(e) && n <= |ws| && e.snap.windows == []
    ensures var e' := PutUpTo(e, prior, ws, n, at);
            && |e'.snap.windows| == n && (forall i :: 0 <= i < n ==> e'.snap.windows[i] == Standing(prior, ws[i], at))
            && e'.snap == e.snap.(windows := e'.snap.windows, observedAt := e'.snap.observedAt)
            && !Later(e.snap.observedAt, e'.snap.observedAt)
            && (forall i :: 0 <= i < n ==> !Later(StandsAt(prior, ws[i], at), e'.snap.observedAt))
            && (e'.snap.observedAt == e.snap.observedAt || exists i :: 0 <= i < n && e'.snap.observedAt == StandsAt(prior, ws[i], at))
  {
    hide RingsOk, PutWindow, Standing, StandsAt;
    if n > 0 {
      PutStands(e, prior, ws, n - 1, at);
      PutWindowStands(PutUpTo(e, prior, ws, n - 1, at), prior, ws[n - 1], at);
    }
  }

  lemma {:induction false} PutUpToReads(e: Entry, prior: Option<Entry>, ws: seq<Window>, n: nat, at: Option<int>)
    requires RingsOk(e) && n <= |ws|
    ensures PutUpTo(e, prior, ws, n, at).read == e.read
  {
    hide RingsOk, RingOk, Observe, Keeps, IndexOf;
    if n > 0 {
      PutUpToReads(e, prior, ws, n - 1, at);
    }
  }

  lemma {:induction false} OmitUpToReads(e: Entry, prior: Option<Entry>, read: seq<Key>, n: nat, at: Option<int>)
    requires RingsOk(e) && n <= |e.order|
    ensures OmitUpTo(e, prior, read, n, at).read == e.read
  {
    hide RingsOk, RingOk, ClearedRing, IndexOf;
    if n > 0 {
      OnRecord(e, n - 1);
      OmitUpToReads(e, prior, read, n - 1, at);
    }
  }

  lemma UnscopedMeans(ws: seq<Window>)
    ensures Unscoped(ws) <==> exists w :: w in ws && w.scope == ""
  {
  }

  lemma {:induction false} KeysIn(ws: seq<Window>, vs: seq<Window>, k: Key)
    requires |vs| == |ws| && forall i :: 0 <= i < |ws| ==> KeyOf(vs[i]) == KeyOf(ws[i])
    ensures k in KeysOf(vs) <==> exists w :: w in ws && KeyOf(w) == k
  {
    if w :| w in ws && KeyOf(w) == k {
      var i :| 0 <= i < |ws| && ws[i] == w;
      assert KeysOf(vs)[i] == k;
    }
    if k in KeysOf(vs) {
      var i :| 0 <= i < |vs| && KeysOf(vs)[i] == k;
      assert ws[i] in ws;
    }
  }

  // A read leaves the windows it carries, in its order, each the store's own
  // where it has seen that one since; takes the newest instant of them and its
  // own; inherits the identity it omits; and is noted as the latest read when
  // it reports an unscoped window.
  lemma ReadStands(prior: Option<Entry>, held: Option<Entry>, snap: Snapshot)
    requires held.Some? ==> RingsOk(held.value)
    ensures var got := Reread(prior, held, snap).snap;
            && |got.windows| == |snap.windows|
            && (forall i :: 0 <= i < |snap.windows| ==> got.windows[i] == Standing(prior, snap.windows[i], snap.observedAt))
            && !Later(snap.observedAt, got.observedAt)
            && (forall i :: 0 <= i < |snap.windows| ==> !Later(StandsAt(prior, snap.windows[i], snap.observedAt), got.observedAt))
            && (got.observedAt == snap.observedAt
                || exists i :: 0 <= i < |snap.windows| && got.observedAt == StandsAt(prior, snap.windows[i], snap.observedAt))
            && got == snap.(windows := got.windows, observedAt := got.observedAt, authIndex := got.authIndex, name := got.name)
            && got.authIndex == (if snap.authIndex != "" || prior.None? then snap.authIndex else prior.value.snap.authIndex)
            && got.name == (if snap.name != "" || prior.None? then snap.name else prior.value.snap.name)
    ensures forall k :: k in Reread(prior, held, snap).read <==>
              if exists w :: w in snap.windows && w.scope == "" then exists w :: w in snap.windows && KeyOf(w) == k
              else held.Some? && k in held.value.read
  {
    hide RingsOk, PutUpTo, OmitUpTo, Unscoped, Standing, StandsAt;
    var e0 := Reopened(prior, held, snap);
    var e1 := PutUpTo(e0, prior, snap.windows, |snap.windows|, snap.observedAt);
    PutStands(e0, prior, snap.windows, |snap.windows|, snap.observedAt);
    PutUpToReads(e0, prior, snap.windows, |snap.windows|, snap.observedAt);
    OmitUpToReads(e1, prior, e0.read, |e1.order|, snap.observedAt);
    PutUpToKeys(e0, prior, snap.windows, |snap.windows|, snap.observedAt);
    UnscopedByKeys(snap.windows, e1.snap.windows);
    UnscopedMeans(snap.windows);
    forall k
      ensures k in KeysOf(e1.snap.windows) <==> exists w :: w in snap.windows && KeyOf(w) == k
    {
      KeysIn(snap.windows, e1.snap.windows, k);
    }
  }

  // A failed fetch of a live credential leaves what is known of its windows,
  // their histories and the change count, and every other credential.
  lemma FailureKeeps(s: Quota, snap: Snapshot)
    requires QuotaOk(s) && snap.authID in s.entries && snap.authID != "" && snap.err != "" && snap.windows == []
    ensures var s', id := PutSnapshot(s, snap), snap.authID;
            && s' == s.(entries := s'.entries) && s'.entries.Keys == s.entries.Keys
            && (forall x :: x in s.entries && x != id ==> s'.entries[x] == s.entries[x])
            && var e, e' := s.entries[id], s'.entries[id];
               && e' == e.(snap := e'.snap) && e'.snap.windows == e.snap.windows && e'.snap.observedAt == e.snap.observedAt
               && e'.snap.source == e.snap.source && e'.snap.err == snap.err && e'.snap.errCategory == snap.errCategory
               && (snap.authIndex == "" ==> e'.snap.authIndex == e.snap.authIndex) && (snap.name == "" ==> e'.snap.name == e.snap.name)
  {
    hide RingsOk, StampsOk;
  }

  // What a window says of itself, where a reading can leave it unsaid.
  function StatusOf(w: Window): Option<string> { if w.status == "" then None else Some(w.status) }

  function SeverityOf(w: Window): Option<string> { if w.severity == "" then None else Some(w.severity) }

  function ResetOf(w: Window): Option<int> { w.resetsAt }

  function LengthOf(w: Window): Option<int> { if w.duration <= 0 then None else Some(w.duration) }

  // The last of a merge's first n readings of a window that counts and says
  // it, or what the stored window says.
  function LastSaid<T>(e: Entry, ws: seq<Window>, n: nat, at: Option<int>, k: Key, f: Window -> Option<T>): Option<T>
    requires n <= |ws|
  {
    if n == 0 then if Stored(e, k).Some? then f(Stored(e, k).value) else None
    else if KeyOf(ws[n - 1]) == k && !Late(e, ws[n - 1], at) && f(ws[n - 1]).Some? then f(ws[n - 1])
    else LastSaid(e, ws, n - 1, at, k, f)
  }

  // Merging a reading that says it takes the reading's word, and otherwise
  // keeps the stored one's.
  ghost predicate Inherits<T>(f: Window -> Option<T>) {
    forall d, w :: f(MergeReading(d, w)) == if f(w).Some? then f(w) else f(d)
  }

  // What it says does not rest on which window is active.
  ghost predicate Passive<T>(f: Window -> Option<T>) { forall d: Window :: f(d.(active := false)) == f(d) }

  ghost predicate SaidIs<T>(e: Entry, k: Key, f: Window -> Option<T>, said: Option<T>) {
    if Stored(e, k).Some? then f(Stored(e, k).value) == said else said.None?
  }

  lemma MergeOneSays<T>(m: Merging, w: Window, at: Option<int>, k: Key, f: Window -> Option<T>, said: Option<T>)
    requires RingsOk(m.e) && Inherits(f) && SaidIs(m.e, k, f, said)
    ensures SaidIs(MergeOne(m, w, at).e, k, f, if KeyOf(w) == k && !Late(m.e, w, at) && f(w).Some? then f(w) else said)
  {
    hide RingsOk, Observe, MergedWindows, IndexOf, Late, MergeReading;
    var ws := m.e.snap.windows;
    if Holds(ws, k) {
      StoredMerged(ws, w, k);
    } else {
      NewMerged(ws, w, k);
    }
  }

  lemma NewMerged(ws: seq<Window>, w: Window, k: Key)
    requires !Holds(ws, k)
    ensures Holds(MergedWindows(ws, w), k) <==> KeyOf(w) == k
    ensures KeyOf(w) == k ==> MergedWindows(ws, w)[IndexOf(MergedWindows(ws, w), k).value] == w
  {
    hide IndexOf;
    var out := MergedWindows(ws, w);
    if KeyOf(w) == k {
      FirstIndex(out, k, |ws|);
    } else {
      SameKeysSameIndex(ws, out, k);
    }
  }

  lemma {:induction false} MergeUpToSays<T>(e: Entry, ws: seq<Window>, n: nat, at: Option<int>, k: Key, f: Window -> Option<T>)
    requires RingsOk(e) && n <= |ws| && Inherits(f)
    ensures SaidIs(MergeUpTo(e, ws, n, at).e, k, f, LastSaid(e, ws, n, at, k, f))
  {
    hide RingsOk, Late, MergeOne, Stored, Inherits;
    if n > 0 {
      MergeUpToSays(e, ws, n - 1, at, k, f);
      LateIsSettled(e, ws, n - 1, ws[n - 1], at);
      MergeOneSays(MergeUpTo(e, ws, n - 1, at), ws[n - 1], at, k, f, LastSaid(e, ws, n - 1, at, k, f));
    } else {
      SaidFirst(e, ws, at, k, f);
    }
  }

  lemma SaidFirst<T>(e: Entry, ws: seq<Window>, at: Option<int>, k: Key, f: Window -> Option<T>)
    ensures SaidIs(e, k, f, LastSaid(e, ws, 0, at, k, f))
  {
  }

  lemma MergedSays<T>(e: Entry, ws: seq<Window>, at: Option<int>, k: Key, f: Window -> Option<T>)
    requires RingsOk(e) && Inherits(f) && Passive(f)
    ensures SaidIs(Merged(e, ws, at), k, f, LastSaid(e, ws, |ws|, at, k, f))
  {
    hide RingOk, MergeUpTo, IndexOf;
    MergeUpToSays(Sourced(e), ws, |ws|, at, k, f);
    SourcedSays(e, ws, |ws|, at, k, f);
    var m := MergeUpTo(Sourced(e), ws, |ws|, at);
    if m.active.Some? {
      SameKeysSameIndex(m.e.snap.windows, OnlyActive(m.e.snap.windows, m.active.value), k);
    }
  }

  lemma {:induction false} SourcedSays<T>(e: Entry, ws: seq<Window>, n: nat, at: Option<int>, k: Key, f: Window -> Option<T>)
    requires n <= |ws|
    ensures LastSaid(Sourced(e), ws, n, at, k, f) == LastSaid(e, ws, n, at, k, f)
  {
    if n > 0 {
      SourcedSays(e, ws, n - 1, at, k, f);
    }
  }

  // A merged window's status, severity, reset and length are each those of the
  // last reading that counts and names one, and the stored window's when none
  // does.
  lemma MergeNames(e: Entry, ws: seq<Window>, at: Option<int>, k: Key)
    requires RingsOk(e) && Stored(Merged(e, ws, at), k).Some?
    ensures var got, n := Stored(Merged(e, ws, at), k).value, |ws|;
            && StatusOf(got) == LastSaid(e, ws, n, at, k, StatusOf)
            && SeverityOf(got) == LastSaid(e, ws, n, at, k, SeverityOf)
            && ResetOf(got) == LastSaid(e, ws, n, at, k, ResetOf)
            && LengthOf(got) == LastSaid(e, ws, n, at, k, LengthOf)
  {
    hide RingOk, Merged, LastSaid, Stored;
    MergedSays(e, ws, at, k, StatusOf);
    MergedSays(e, ws, at, k, SeverityOf);
    MergedSays(e, ws, at, k, ResetOf);
    MergedSays(e, ws, at, k, LengthOf);
  }

  function ActiveOf(w: Window): Option<bool> { Some(w.active) }

  // A merged window is active exactly when the last of its readings that
  // counts says so, or the stored one where none counts, and no reading that
  // counts names another window after the last that names this one.
  lemma ActiveExact(e: Entry, ws: seq<Window>, at: Option<int>, k: Key)
    requires RingsOk(e) && Stored(Merged(e, ws, at), k).Some?
    ensures var named := LastActive(e, ws, |ws|, at);
            Stored(Merged(e, ws, at), k).value.active <==>
            (named.None? || named.value == k) && LastSaid(e, ws, |ws|, at, k, ActiveOf) == Some(true)
  {
    hide RingOk, MergeUpTo, IndexOf, LastActive, LastSaid, Late;
    var m := MergeUpTo(Sourced(e), ws, |ws|, at);
    MergeUpToSays(Sourced(e), ws, |ws|, at, k, ActiveOf);
    SourcedSays(e, ws, |ws|, at, k, ActiveOf);
    ActiveIsLast(Sourced(e), ws, |ws|, at);
    SourcedActive(e, ws, |ws|, at);
    if m.active.Some? {
      SameKeysSameIndex(m.e.snap.windows, OnlyActive(m.e.snap.windows, m.active.value), k);
    }
  }

  lemma {:induction false} MergeUpToLeaves(e: Entry, ws: seq<Window>, n: nat, at: Option<int>)
    requires RingsOk(e) && n <= |ws|
    ensures var e' := MergeUpTo(e, ws, n, at).e; e'.snap == e.snap.(windows := e'.snap.windows) && e'.read == e.read
  {
    hide RingsOk, RingOk, History.Put, Late, MergedWindows;
    if n > 0 {
      MergeUpToLeaves(e, ws, n - 1, at);
    }
  }

  // A merge leaves the credential's identity and last error, and its instant
  // where that is no earlier; the source is the headers' only where no window
  // was on record.
  lemma MergeLeaves(e: Entry, ws: seq<Window>, at: Option<int>)
    requires RingsOk(e)
    ensures var got := Merged(e, ws, at).snap;
            && got == e.snap.(windows := got.windows, source := got.source, observedAt := got.observedAt)
            && got.source == (if e.snap.windows == [] then ResponseHeaders else e.snap.source)
            && !Later(at, got.observedAt) && !Later(e.snap.observedAt, got.observedAt) && (got.observedAt == at || got.observedAt == e.snap.observedAt)
            && Merged(e, ws, at).read == e.read
  {
    hide RingOk, MergeUpTo;
    MergeUpToLeaves(Sourced(e), ws, |ws|, at);
  }

  // When a refusal is expected to end, by what its reading and the stored
  // window name.
  lemma ExpectedEnd(w: Window, e: Entry, at: int)
    ensures var until, stored := RefusedUntil(w, e.snap.windows, at), Stored(e, KeyOf(w));
            && (w.resetsAt.Some? ==> until == w.resetsAt)
            && (w.resetsAt.None? && stored.Some? && stored.value.resetsAt.Some? ==> until == stored.value.resetsAt)
            && (w.resetsAt.None? && (stored.None? || stored.value.resetsAt.None?) ==>
                  until == if w.duration > 0 then Some(at + w.duration)
                           else if stored.Some? && stored.value.duration > 0 then Some(at + stored.value.duration) else None)
  {
    hide IndexOf;
  }
}
