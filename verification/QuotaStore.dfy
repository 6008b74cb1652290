/** The snapshot store as the program runs it: maps of entries changed in place
    by each operation, proved against QuotaTable. */
module QuotaStore {
  import opened Basics
  import opened Windows
  import opened History
  import opened HistoryInvariants
  import opened QuotaTable

  method FindKey(ws: seq<Window>, key: Key) returns (at: Option<nat>)
    ensures at == IndexOf(ws, key)
  {
    for i := 0 to |ws|
      invariant forall j :: 0 <= j < i ==> KeyOf(ws[j]) != key
    {
      if KeyOf(ws[i]) == key {
        return Some(i);
      }
    }
    return None;
  }

  // ----- the loops of the operations

  method ReadWindows(e0: Entry, prior: Option<Entry>, ws: seq<Window>, at: Option<int>) returns (e: Entry)
    requires RingsOk(e0) && e0.snap.windows == []
    ensures RingsOk(e) && e == PutUpTo(e0, prior, ws, |ws|, at)
  {
    hide RingsOk, Observe, IndexOf;
    e := e0;
    var stored, newest := ws, e0.snap.observedAt;
    ghost var g := e0;
    for i := 0 to |ws|
      invariant RingsOk(e) && g == PutUpTo(e0, prior, ws, i, at)
      invariant |stored| == |ws| && forall j :: i <= j < |ws| ==> stored[j] == ws[j]
      invariant e.snap == e0.snap && g.snap == e0.snap.(windows := stored[..i], observedAt := newest)
      invariant g.seenAt == e.seenAt && g.rings == e.rings && g.order == e.order && g.read == e.read
    {
      ghost var was := stored;
      var key, when, kept := KeyOf(ws[i]), at, false;
      if prior.Some? && key in prior.value.seenAt && Later(prior.value.seenAt[key], at) {
        var j := FindKey(prior.value.snap.windows, key);
        if j.Some? {
          stored := stored[i := prior.value.snap.windows[j.value]];
          when := prior.value.seenAt[key];
          kept := true;
        }
      }
      if !kept {
        ObserveAny(e, g, when, ws[i]);
        e := Observe(e, when, stored[i]);
      }
      g := PutWindow(g, prior, ws[i], at);
      OnePast(was, i, stored[i]);
      SoundRings(g, e.(seenAt := e.seenAt[key := when]));
      e := e.(seenAt := e.seenAt[key := when]);
      if Later(when, newest) {
        newest := when;
      }
    }
    assert stored[..|ws|] == stored;
    SoundRings(g, e.(snap := e.snap.(windows := stored, observedAt := newest)));
    e := e.(snap := e.snap.(windows := stored, observedAt := newest));
  }

  lemma OnePast(s: seq<Window>, i: nat, w: Window)
    requires i < |s|
    ensures s[i := w][..i + 1] == s[..i] + [w] && s[i := s[i]] == s
  {
  }

  lemma SoundRings(e: Entry, f: Entry)
    requires RingsOk(e) && f.rings == e.rings && f.order == e.order
    ensures RingsOk(f)
  {
    hide RingOk;
  }

  // A history's place and next state do not depend on the snapshot.
  lemma ObserveAny(e: Entry, f: Entry, at: Option<int>, w: Window)
    requires RingsOk(e) && RingsOk(f) && e.rings == f.rings && e.order == f.order
    ensures Observe(e, at, w).rings == Observe(f, at, w).rings && Observe(e, at, w).order == Observe(f, at, w).order
  {
    hide RingOk, History.Put;
  }

  method OmitWindows(e0: Entry, prior: Option<Entry>, read: seq<Key>, at: Option<int>) returns (e: Entry)
    requires RingsOk(e0)
    ensures RingsOk(e) && e == OmitUpTo(e0, prior, read, |e0.order|, at)
  {
    hide RingsOk, IndexOf, ClearedRing;
    e := e0;
    for i := 0 to |e0.order|
      invariant RingsOk(e) && e == OmitUpTo(e0, prior, read, i, at)
    {
      var key := e0.order[i];
      OmitUpToNext(e0, prior, read, i, at);
      var j := FindKey(e.snap.windows, key);
      if key.scope != "" || j.Some? {
        continue;
      }
      if key in read {
        ClearingKeeps(e, key, at);
        e := e.(rings := e.rings[key := ClearedRing(e.rings[key], at)]);
      }
      var seen := at;
      if prior.Some? && Later(SeenAt(prior.value, key), at) {
        seen := SeenAt(prior.value, key);
      }
      e := e.(seenAt := e.seenAt[key := seen]);
    }
  }

  lemma ClearingKeeps(e: Entry, key: Key, at: Option<int>)
    requires RingsOk(e) && key in e.rings
    ensures RingOk(e.rings[key])
  {
    hide RingOk;
  }

  lemma OmitUpToNext(e: Entry, prior: Option<Entry>, read: seq<Key>, i: nat, at: Option<int>)
    requires RingsOk(e) && i < |e.order|
    ensures var e1 := OmitUpTo(e, prior, read, i, at);
            e.order[i] in e1.rings && OmitUpTo(e, prior, read, i + 1, at) == OmitWindow(e1, prior, read, e.order[i], at)
  {
    hide RingOk, OmitWindow;
  }

  method MergeReadings(e0: Entry, ws: seq<Window>, at: Option<int>) returns (e: Entry, active: Option<Key>)
    requires RingsOk(e0)
    ensures RingsOk(e) && Merging(e, active) == MergeUpTo(e0, ws, |ws|, at)
  {
    hide RingOk, Observe, IndexOf, MergeReading;
    e, active := e0, None;
    for i := 0 to |ws|
      invariant RingsOk(e) && Merging(e, active) == MergeUpTo(e0, ws, i, at)
    {
      var w := ws[i];
      var key, windows := KeyOf(w), e.snap.windows;
      if key in e.seenAt && Later(e.seenAt[key], at) {
        continue;
      }
      var j := FindKey(windows, key);
      if j.Some? {
        windows := windows[j.value := MergeReading(windows[j.value], w)];
      } else {
        windows := windows + [w];
      }
      if !w.derived {
        e := Observe(e, at, w);
      }
      e := e.(snap := e.snap.(windows := windows), seenAt := e.seenAt[key := at]);
      if w.active {
        active := Some(key);
      }
    }
  }

  method ClearActive(ws: seq<Window>, key: Key) returns (out: seq<Window>)
    ensures out == OnlyActive(ws, key)
  {
    out := ws;
    for i := 0 to |ws|
      invariant |out| == |ws|
      invariant forall j :: 0 <= j < |ws| ==> out[j] == if j < i && KeyOf(ws[j]) != key then ws[j].(active := false) else ws[j]
    {
      if KeyOf(ws[i]) != key {
        out := out[i := out[i].(active := false)];
      }
    }
  }

  method RefuseReadings(e0: Entry, ws: seq<Window>, admitted: int, at: int) returns (e: Entry, count: nat)
    requires RingsOk(e0)
    ensures RingsOk(e) && (e, count) == RefuseUpTo(e0, ws, |ws|, admitted, at)
  {
    hide RingOk, IndexOf, RefusedUntil, Refuse;
    e, count := e0, 0;
    for i := 0 to |ws|
      invariant RingsOk(e) && (e, count) == RefuseUpTo(e0, ws, i, admitted, at)
    {
      var w := ws[i];
      if !Blocking(w) {
        continue;
      }
      var until, r := RefusedUntil(w, e.snap.windows, at), RingFor(e, KeyOf(w));
      if until.None? {
        continue;
      }
      var (spans, changed) := Refuse(r.spans, admitted, at, until.value, Oldest(r.track.cycles));
      RefuseSound(e, KeyOf(w), admitted, at, until.value);
      if changed || KeyOf(w) in e.rings {
        e := WithRing(e, KeyOf(w), r.(spans := spans));
      }
      if changed {
        count := count + 1;
      }
    }
  }

  lemma RefuseSound(e: Entry, key: Key, admitted: int, at: int, until: int)
    requires RingsOk(e)
    ensures var r := RingFor(e, key);
            RingOk(r.(spans := Refuse(r.spans, admitted, at, until, Oldest(r.track.cycles)).0))
  {
    hide TrackOk, SpansOk;
    var r := RingFor(e, key);
    EmptyRingOk();
    RefuseOk(r.spans, admitted, at, until, Oldest(r.track.cycles));
  }

  lemma EmptyRingOk()
    ensures RingOk(EMPTY_RING)
  {
  }

  method ServeWindows(e0: Entry, family: string, admitted: int, at: int) returns (e: Entry, any: bool)
    requires RingsOk(e0)
    ensures RingsOk(e) && (e, any) == ServeUpTo(e0, |e0.order|, family, admitted, at)
  {
    hide RingsOk, Caps, Serve;
    e, any := e0, false;
    for i := 0 to |e0.order|
      invariant RingsOk(e) && (e, any) == ServeUpTo(e0, i, family, admitted, at)
    {
      var key := e0.order[i];
      ServeUpToNext(e0, i, family, admitted, at);
      if Caps(key, family) {
        var (spans, changed) := Serve(e.rings[key].spans, admitted, at);
        e := e.(rings := e.rings[key := e.rings[key].(spans := spans)]);
        any := any || changed;
      }
    }
  }

  lemma ServeUpToNext(e: Entry, i: nat, family: string, admitted: int, at: int)
    requires RingsOk(e) && i < |e.order|
    ensures e.order[i] in ServeUpTo(e, i, family, admitted, at).0.rings
    ensures var (e1, any) := ServeUpTo(e, i, family, admitted, at);
            var (e2, changed) := ServeOne(e1, e.order[i], family, admitted, at);
            RingsOk(e2) && ServeUpTo(e, i + 1, family, admitted, at) == (e2, any || changed)
  {
    hide RingOk, ServeOne;
  }

  // What is left of a map once every id outside ids has been looked at.
  function Left(m: map<string, Entry>, ids: set<string>, keep: set<string>): map<string, Entry> {
    map id | id in m && (id in ids || id in keep) :: m[id]
  }

  // What has been added to a map by then.
  function Added(held: map<string, Entry>, m: map<string, Entry>, ids: set<string>, keep: set<string>): map<string, Entry> {
    held + map id | id in m && id !in ids && id !in keep && m[id].order != [] :: m[id]
  }

  // What has been counted by then.
  function Counted(all: set<string>, ids: set<string>, keep: set<string>): set<string> { all - keep - ids }

  lemma LeftBounds(m: map<string, Entry>, keep: set<string>)
    ensures Left(m, m.Keys, keep) == m && Left(m, {}, keep) == Among(m, keep)
  {
  }

  lemma LeftStep(m: map<string, Entry>, ids: set<string>, keep: set<string>, id: string)
    requires id in ids && id in m
    ensures id in Left(m, ids, keep) && Left(m, ids, keep)[id] == m[id]
    ensures Left(m, ids - {id}, keep) == if id in keep then Left(m, ids, keep) else Left(m, ids, keep) - {id}
  {
  }

  lemma AddedBounds(held: map<string, Entry>, m: map<string, Entry>, keep: set<string>)
    ensures Added(held, m, m.Keys, keep) == held && Added(held, m, {}, keep) == held + Dropped(m, keep)
  {
  }

  lemma AddedStep(held: map<string, Entry>, m: map<string, Entry>, ids: set<string>, keep: set<string>, id: string)
    requires id in ids && id in m
    ensures Added(held, m, ids - {id}, keep) ==
            if id !in keep && m[id].order != [] then Added(held, m, ids, keep)[id := m[id]] else Added(held, m, ids, keep)
  {
  }

  lemma CountedBounds(all: set<string>, keep: set<string>)
    ensures Counted(all, all, keep) == {} && Counted(all, {}, keep) == all - keep
  {
  }

  lemma CountedStep(all: set<string>, ids: set<string>, keep: set<string>, id: string)
    requires id in ids && ids <= all
    ensures Counted(all, ids - {id}, keep) == Counted(all, ids, keep) + if id in keep then {} else {id}
    ensures |Counted(all, ids - {id}, keep)| == |Counted(all, ids, keep)| + if id in keep then 0 else 1
  {
    assert Counted(all, ids - {id}, keep) == Counted(all, ids, keep) + if id in keep then {} else {id};
  }

  method Listed(held: map<string, Entry>, keep: set<string>) returns (pending: map<string, Entry>)
    ensures pending == Among(held, keep)
  {
    hide Left, Among;
    pending := held;
    var ids := held.Keys;
    LeftBounds(held, keep);
    while ids != {}
      invariant ids <= held.Keys && pending == Left(held, ids, keep)
    {
      var id :| id in ids;
      LeftStep(held, ids, keep, id);
      if id !in keep {
        pending := pending - {id};
      }
      ids := ids - {id};
    }
  }

  method Unlist(live: map<string, Entry>, held: map<string, Entry>, keep: set<string>)
    returns (entries: map<string, Entry>, pending: map<string, Entry>, gone: nat)
    ensures entries == Among(live, keep) && pending == held + Dropped(live, keep) && gone == |Departed(live, keep)|
  {
    hide Left, Added, Counted, Among, Dropped;
    entries, pending, gone := live, held, 0;
    var ids := live.Keys;
    LeftBounds(live, keep);
    AddedBounds(held, live, keep);
    CountedBounds(live.Keys, keep);
    while ids != {}
      invariant ids <= live.Keys && gone == |Counted(live.Keys, ids, keep)|
      invariant entries == Left(live, ids, keep) && pending == Added(held, live, ids, keep)
    {
      var id :| id in ids;
      LeftStep(live, ids, keep, id);
      AddedStep(held, live, ids, keep, id);
      CountedStep(live.Keys, ids, keep, id);
      if id !in keep {
        if |entries[id].order| > 0 {
          pending := pending[id := entries[id]];
        }
        entries := entries - {id};
        gone := gone + 1;
      }
      ids := ids - {id};
    }
  }

  method Forget(known: set<string>, keep: set<string>, pending: map<string, Entry>) returns (logins: set<string>, gone: nat)
    ensures logins == known - Forgotten(known, keep, pending) && gone == |Forgotten(known, keep, pending)|
  {
    hide Counted;
    logins, gone := known, 0;
    var ids := known;
    ghost var held := keep + pending.Keys;
    CountedBounds(known, held);
    while ids != {}
      invariant ids <= known && gone == |Counted(known, ids, held)| && logins == known - Counted(known, ids, held)
    {
      var id :| id in ids;
      CountedStep(known, ids, held, id);
      if id !in keep && id !in pending {
        logins := logins - {id};
        gone := gone + 1;
      }
      ids := ids - {id};
    }
    assert known - held == Forgotten(known, keep, pending);
  }

  lemma PlusOne(m: map<string, Entry>, n: map<string, Entry>, id: string, e: Entry)
    ensures m + n[id := e] == (m + n)[id := e]
  {
  }

  lemma RevivedStep(s: Quota, done: set<string>, id: string)
    requires (forall i :: i in s.pending ==> HeldOk(s.pending[i])) && id in s.pending && id !in done
    ensures id !in Revived(s, done)
    ensures Revived(s, done + {id}) == if Resumes(s, id) then Revived(s, done)[id := Resumed(s.pending[id])] else Revived(s, done)
  {
    hide Resumed, HeldOk;
  }

  lemma UnrevivedStep(s: Quota, done: set<string>, id: string)
    requires id in s.pending && id !in done
    ensures id in Unrevived(s, done) && Unrevived(s, done)[id] == s.pending[id]
    ensures Unrevived(s, done + {id}) == if Resumes(s, id) then Unrevived(s, done) - {id} else Unrevived(s, done)
  {
  }

  lemma RevivedBounds(s: Quota, listed: set<string>, done: set<string>)
    requires (forall i :: i in s.pending ==> HeldOk(s.pending[i])) && done == listed * s.pending.Keys
    ensures Revived(s, {}) == map[] && Unrevived(s, {}) == s.pending && s.entries + map[] == s.entries
    ensures Revived(s, done) == Revived(s, listed) && Unrevived(s, done) == Unrevived(s, listed)
    ensures forall id :: id in Revived(s, listed) <==> id in s.pending && id in listed && Resumes(s, id)
  {
    hide Resumed, HeldOk;
  }

  // ----- the store

  class Store {
    var entries: map<string, Entry>
    var pending: map<string, Entry>
    var logins: set<string>
    var history: nat

    ghost function State(): Quota
      reads this
    {
      Quota(entries, pending, logins, history)
    }

    ghost predicate Valid()
      reads this
    {
      QuotaOk(State())
    }

    constructor ()
      ensures Valid() && State() == EMPTY
    {
      entries, pending, logins, history := map[], map[], {}, 0;
    }

    // A usage read replaces the credential's windows, except those the store
    // saw later; a failed one changes only the error and the identity.
    method Put(snap: Snapshot)
      requires Valid()
      modifies this
      ensures State() == PutSnapshot(old(State()), snap)
      ensures Valid()
    {
      hide QuotaOk, RingsOk, StampsOk, PutUpTo, OmitUpTo, Reopened;
      var id := snap.authID;
      if id == "" {
        return;
      }
      if id in entries && snap.err != "" && |snap.windows| == 0 {
        var prior := entries[id];
        var kept := prior.snap.(err := snap.err, errCategory := snap.errCategory);
        if snap.authIndex != "" {
          kept := kept.(authIndex := snap.authIndex);
        }
        if snap.name != "" {
          kept := kept.(name := snap.name);
        }
        entries := entries[id := prior.(snap := kept)];
        return;
      }
      var prior, held := None, None;
      if id in entries {
        prior := Some(entries[id]);
        held := prior;
      } else if id in pending {
        held := Some(pending[id]);
        pending := pending - {id};
      } else {
        assert pending - {id} == pending;
      }
      HeldSound(old(State()), id);
      var opening := Reopened(prior, held, snap);
      var e := ReadWindows(opening, prior, snap.windows, snap.observedAt);
      if Unscoped(e.snap.windows) {
        e := OmitWindows(e, prior, opening.read, snap.observedAt);
        e := e.(read := KeysOf(e.snap.windows));
      }
      history := history + 1;
      entries := entries[id := e];
    }

    // A header reading updates the windows it carries and no other.
    method MergeHeaders(id: string, ws: seq<Window>, at: Option<int>)
      requires Valid()
      modifies this
      ensures State() == QuotaTable.MergeHeaders(old(State()), id, ws, at)
      ensures Valid()
    {
      hide QuotaOk, RingsOk, StampsOk, MergeUpTo, OnlyActive, Reopened, Resumed;
      if id == "" || |ws| == 0 {
        return;
      }
      OpeningSound(State(), id);
      var e;
      if id in entries {
        e := entries[id];
      } else if id in pending && pending[id].snap.observedAt.Some? {
        HeldEntry(State(), id);
        e := Resumed(pending[id]);
      } else {
        var held := if id in pending then Some(pending[id]) else None;
        HeldSound(State(), id);
        e := Reopened(None, held, Snapshot(id, "", "", [], None, ResponseHeaders, "", "")).(read := []);
      }
      if id !in entries {
        pending := pending - {id};
      }
      history := history + 1;
      if |e.snap.windows| == 0 {
        e := e.(snap := e.snap.(source := ResponseHeaders));
      }
      SourcedSound(Opening(old(State()), id));
      var active;
      e, active := MergeReadings(e, ws, at);
      var windows := e.snap.windows;
      if active.Some? {
        windows := ClearActive(windows, active.value);
      }
      e := e.(snap := e.snap.(windows := windows));
      if Later(at, e.snap.observedAt) {
        e := e.(snap := e.snap.(observedAt := at));
      }
      entries := entries[id := e];
    }

    // Every window a reading reports as rejected gains a refusal.
    method RecordRefusals(id: string, ws: seq<Window>, admitted: Option<int>, at: Option<int>)
      requires Valid()
      modifies this
      ensures State() == QuotaTable.RecordRefusals(old(State()), id, ws, admitted, at)
      ensures Valid()
    {
      hide QuotaOk, RingsOk, StampsOk, RefuseUpTo;
      if id == "" || at.None? || id !in entries {
        return;
      }
      var first := if admitted.Some? then admitted.value else at.value;
      HeldSound(State(), id);
      var e, count := RefuseReadings(entries[id], ws, first, at.value);
      entries := entries[id := e];
      history := history + count;
    }

    // Every window that caps the family keeps the admission and ends its
    // ongoing span if the span's latest refusal came before it.
    method MarkServed(id: string, family: string, admitted: Option<int>, at: Option<int>)
      requires Valid()
      modifies this
      ensures State() == QuotaTable.MarkServed(old(State()), id, family, admitted, at)
      ensures Valid()
    {
      hide QuotaOk, RingsOk, StampsOk, ServeUpTo;
      if id == "" || at.None? || admitted.None? || id !in entries {
        return;
      }
      HeldSound(State(), id);
      var e, changed := ServeWindows(entries[id], family, admitted.value, at.value);
      entries := entries[id := e];
      if changed {
        history := history + 1;
      }
    }

    // Credentials outside a listing leave; their histories are held for one
    // more listing.
    method Prune(keep: set<string>)
      requires Valid()
      modifies this
      ensures State() == QuotaTable.Prune(old(State()), keep)
      ensures Valid()
    {
      hide QuotaOk, Among, Dropped, Departed, Forgotten;
      pending := Listed(pending, keep);
      var gone;
      entries, pending, gone := Unlist(entries, pending, keep);
      history := history + gone;
      logins, gone := Forget(logins, keep, pending);
      history := history + gone;
    }

    // Listed credentials held with a reading are live again.
    method Restore(listed: set<string>) returns (out: map<string, Snapshot>)
      requires Valid()
      modifies this
      ensures State() == QuotaTable.Restore(old(State()), listed)
      ensures Valid()
      ensures forall id :: id in out <==> id in old(pending) && id in listed && Resumes(old(State()), id)
      ensures forall id :: id in out ==> id in entries && out[id] == entries[id].snap
    {
      hide QuotaOk, Resumed, HeldOk, Revived, Unrevived;
      HeldAll(State());
      out := map[];
      var ids := pending.Keys;
      ghost var was, done := State(), {};
      RevivedBounds(was, listed, listed * was.pending.Keys);
      while ids != {}
        invariant ids <= was.pending.Keys && done == listed * (was.pending.Keys - ids)
        invariant State() == was.(entries := was.entries + Revived(was, done), pending := Unrevived(was, done))
        invariant out.Keys == Revived(was, done).Keys && forall id :: id in out ==> out[id] == Revived(was, done)[id].snap
      {
        var id :| id in ids;
        if id in listed {
          RevivedStep(was, done, id);
          UnrevivedStep(was, done, id);
          if pending[id].snap.observedAt.Some? {
            var e := Resumed(pending[id]);
            PlusOne(was.entries, Revived(was, done), id, e);
            pending := pending - {id};
            entries := entries[id := e];
            out := out[id := e.snap];
          }
          done := done + {id};
        }
        ids := ids - {id};
      }
      assert was.pending.Keys - {} == was.pending.Keys;
    }
  }

  lemma HeldAll(s: Quota)
    requires QuotaOk(s)
    ensures forall id :: id in s.pending ==> HeldOk(s.pending[id])
  {
    hide RingsOk, StampsOk, HeldOk;
  }

  lemma HeldEntry(s: Quota, id: string)
    requires QuotaOk(s)
    ensures id in s.pending ==> HeldOk(s.pending[id])
  {
    hide RingsOk, StampsOk, HeldOk;
  }

  lemma OpeningSound(s: Quota, id: string)
    requires QuotaOk(s)
    ensures RingsOk(Opening(s, id)) && StampsOk(Opening(s, id))
  {
  }

  lemma SourcedSound(e: Entry)
    requires RingsOk(e)
    ensures RingsOk(Sourced(e))
  {
    hide RingOk;
  }
}
