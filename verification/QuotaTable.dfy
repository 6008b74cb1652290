/** The snapshot store's contents and what each operation makes of them: the
    operations of internal/quota/store.go on values. QuotaStore holds the
    mutable store proved against them. */
module QuotaTable {
  import opened Basics
  import opened Windows
  import opened History
  import opened HistoryInvariants

  datatype Key = Key(kind: Kind, scope: string)

  // A credential's snapshot, the instant each window was seen at, each
  // window's recorded history, the windows in the order they were first seen,
  // and those the latest read of an unscoped window carried.
  datatype Entry = Entry(snap: Snapshot, seenAt: map<Key, Option<int>>, rings: map<Key, Ring>,
                         order: seq<Key>, read: seq<Key>)

  // Live entries, the entries held for credentials without one, the
  // credentials whose login is recorded, and the count of changes made.
  datatype Quota = Quota(entries: map<string, Entry>, pending: map<string, Entry>, logins: set<string>, version: nat)

  const EMPTY := Quota(map[], map[], {}, 0)

  function KeyOf(w: Window): Key { Key(w.kind, w.scope) }

  // The first window with a key.
  function IndexOf(ws: seq<Window>, key: Key): (at: Option<nat>)
    ensures at.Some? ==> at.value < |ws| && KeyOf(ws[at.value]) == key && forall i :: 0 <= i < at.value ==> KeyOf(ws[i]) != key
    ensures at.None? ==> forall i :: 0 <= i < |ws| ==> KeyOf(ws[i]) != key
  {
    if ws == [] then None
    else if KeyOf(ws[0]) == key then Some(0)
    else
      var rest := IndexOf(ws[1..], key);
      if rest.Some? then Some(rest.value + 1) else None
  }

  predicate Holds(ws: seq<Window>, key: Key) { IndexOf(ws, key).Some? }

  // The instant a is after b, where no instant is before every instant.
  predicate Later(a: Option<int>, b: Option<int>) {
    a.Some? && (b.None? || b.value < a.value)
  }

  function SeenAt(e: Entry, key: Key): Option<int> { if key in e.seenAt then e.seenAt[key] else None }

  // ----- what every state keeps

  // Every recorded window has one place in the order and a sound ring.
  ghost predicate RingsOk(e: Entry) {
    && (forall k :: k in e.rings ==> RingOk(e.rings[k]))
    && (forall k :: k in e.order <==> k in e.rings)
    && (forall i, j :: 0 <= i < j < |e.order| ==> e.order[i] != e.order[j])
  }

  // Every window was seen, and none after an instant.
  ghost predicate StampsBy(ws: seq<Window>, seenAt: map<Key, Option<int>>, cap: Option<int>) {
    forall i :: 0 <= i < |ws| ==> KeyOf(ws[i]) in seenAt && !Later(seenAt[KeyOf(ws[i])], cap)
  }

  // A snapshot is as recent as the newest of its windows.
  ghost predicate StampsOk(e: Entry) { StampsBy(e.snap.windows, e.seenAt, e.snap.observedAt) }

  // A held entry may come from a file, which records no window's own instant.
  ghost predicate HeldOk(e: Entry) { RingsOk(e) && (e.seenAt == map[] || StampsOk(e)) }

  ghost predicate QuotaOk(s: Quota) {
    && s.entries.Keys !! s.pending.Keys
    && (forall id :: id in s.entries ==> RingsOk(s.entries[id]) && StampsOk(s.entries[id]))
    && (forall id :: id in s.pending ==> HeldOk(s.pending[id]))
  }

  // ----- readings

  // Halves round away from zero.
  function Rounded(r: real): int {
    if r >= 0.0 then (r + 0.5).Floor else -(-r + 0.5).Floor
  }

  function Level(u: Float): Option<int> {
    match u
    case Fin(r) => Some(Rounded(r * 10000.0))
    case _ => None
  }

  function ReadingOf(at: Option<int>, w: Window): Reading { Reading(at, Level(w.util), w.resetsAt) }

  function RingFor(e: Entry, key: Key): Ring { if key in e.rings then e.rings[key] else EMPTY_RING }

  function WithRing(e: Entry, key: Key, r: Ring): (e': Entry)
    requires RingsOk(e) && RingOk(r)
    ensures RingsOk(e') && e' == e.(rings := e'.rings, order := e'.order)
  {
    e.(rings := e.rings[key := r], order := if key in e.rings then e.order else e.order + [key])
  }

  function Observe(e: Entry, at: Option<int>, w: Window): (e': Entry)
    requires RingsOk(e)
    ensures RingsOk(e') && e' == e.(rings := e'.rings, order := e'.order)
  {
    var r := RingFor(e, KeyOf(w));
    PutOk(r, ReadingOf(at, w), false);
    WithRing(e, KeyOf(w), History.Put(r, ReadingOf(at, w), false))
  }

  // ----- a usage read

  // Whether a window the store saw after the read keeps its stored value.
  predicate Keeps(prior: Option<Entry>, w: Window, at: Option<int>) {
    prior.Some? && Later(SeenAt(prior.value, KeyOf(w)), at) && Holds(prior.value.snap.windows, KeyOf(w))
  }

  function PutWindow(e: Entry, prior: Option<Entry>, w: Window, at: Option<int>): (e': Entry)
    requires RingsOk(e)
    ensures RingsOk(e')
  {
    var key := KeyOf(w);
    if Keeps(prior, w, at) then
      var seen := SeenAt(prior.value, key);
      var kept := prior.value.snap.windows[IndexOf(prior.value.snap.windows, key).value];
      e.(snap := e.snap.(windows := e.snap.windows + [kept], observedAt := if Later(seen, e.snap.observedAt) then seen else e.snap.observedAt),
         seenAt := e.seenAt[key := seen])
    else
      var e1 := Observe(e, at, w);
      e1.(snap := e.snap.(windows := e.snap.windows + [w], observedAt := if Later(at, e.snap.observedAt) then at else e.snap.observedAt),
          seenAt := e.seenAt[key := at])
  }

  // The entry after the first n windows of a read.
  function PutUpTo(e: Entry, prior: Option<Entry>, ws: seq<Window>, n: nat, at: Option<int>): (e': Entry)
    requires RingsOk(e) && n <= |ws|
    ensures RingsOk(e')
  {
    if n == 0 then e else PutWindow(PutUpTo(e, prior, ws, n - 1, at), prior, ws[n - 1], at)
  }

  predicate Unscoped(ws: seq<Window>) { exists w :: w in ws && w.scope == "" }

  function ClearedRing(r: Ring, at: Option<int>): (r': Ring)
    requires RingOk(r)
    ensures RingOk(r')
  {
    if at.None? then r
    else
      EndSpanOk(r.spans, at.value, Cleared);
      r.(spans := EndSpan(r.spans, at.value, Cleared).0)
  }

  function OmitWindow(e: Entry, prior: Option<Entry>, read: seq<Key>, key: Key, at: Option<int>): (e': Entry)
    requires RingsOk(e) && key in e.rings
    ensures RingsOk(e') && e'.rings.Keys == e.rings.Keys && e'.order == e.order && e'.snap == e.snap
  {
    if key.scope != "" || Holds(e.snap.windows, key) then e
    else
      var e1 := if key in read then e.(rings := e.rings[key := ClearedRing(e.rings[key], at)]) else e;
      e1.(seenAt := e1.seenAt[key := if prior.Some? && Later(SeenAt(prior.value, key), at) then SeenAt(prior.value, key) else at])
  }

  // The entry after the read's silence about the first n windows on record.
  function OmitUpTo(e: Entry, prior: Option<Entry>, read: seq<Key>, n: nat, at: Option<int>): (e': Entry)
    requires RingsOk(e) && n <= |e.order|
    ensures RingsOk(e') && e'.rings.Keys == e.rings.Keys && e'.order == e.order && e'.snap == e.snap
  {
    if n == 0 then e else OmitWindow(OmitUpTo(e, prior, read, n - 1, at), prior, read, e.order[n - 1], at)
  }

  function KeysOf(ws: seq<Window>): (ks: seq<Key>)
    ensures |ks| == |ws| && forall i :: 0 <= i < |ws| ==> ks[i] == KeyOf(ws[i])
  {
    if ws == [] then [] else KeysOf(Front(ws)) + [KeyOf(Last(ws))]
  }

  // The entry a read opens, before its windows: the identity it omits is
  // inherited, the histories are those the store already held.
  function Reopened(prior: Option<Entry>, held: Option<Entry>, snap: Snapshot): (e: Entry)
    requires held.Some? ==> RingsOk(held.value)
    ensures RingsOk(e) && e.seenAt == map[] && e.snap.windows == []
  {
    var stored := snap.(windows := [],
    authIndex := if prior.Some? && snap.authIndex == "" then prior.value.snap.authIndex else snap.authIndex,
    name := if prior.Some? && snap.name == "" then prior.value.snap.name else snap.name);
    if held.Some? then Entry(stored, map[], held.value.rings, held.value.order, held.value.read)
    else Entry(stored, map[], map[], [], [])
  }

  function Reread(prior: Option<Entry>, held: Option<Entry>, snap: Snapshot): (e: Entry)
    requires held.Some? ==> RingsOk(held.value)
    ensures RingsOk(e)
  {
    var e0 := Reopened(prior, held, snap);
    var e1 := PutUpTo(e0, prior, snap.windows, |snap.windows|, snap.observedAt);
    if Unscoped(e1.snap.windows) then
      OmitUpTo(e1, prior, e0.read, |e1.order|, snap.observedAt).(read := KeysOf(e1.snap.windows))
    else e1
  }

  // A failed fetch changes the error and the identity it carries, nothing else.
  function Failed(e: Entry, snap: Snapshot): Entry {
    e.(snap := e.snap.(err := snap.err, errCategory := snap.errCategory,
    authIndex := if snap.authIndex != "" then snap.authIndex else e.snap.authIndex,
    name := if snap.name != "" then snap.name else e.snap.name))
  }

  function Prior(s: Quota, id: string): Option<Entry> {
    if id in s.entries then Some(s.entries[id]) else None
  }

  function HeldFor(s: Quota, id: string): Option<Entry> {
    if id in s.entries then Some(s.entries[id]) else if id in s.pending then Some(s.pending[id]) else None
  }

  lemma HeldSound(s: Quota, id: string)
    requires QuotaOk(s)
    ensures HeldFor(s, id).Some? ==> RingsOk(HeldFor(s, id).value)
  {
    hide RingsOk, StampsOk;
  }

  predicate Fails(snap: Snapshot) { snap.err != "" && snap.windows == [] }

  function PutSnapshot(s: Quota, snap: Snapshot): (s': Quota)
    requires QuotaOk(s)
    ensures QuotaOk(s')
  {
    var id := snap.authID;
    if id == "" then s
    else if id in s.entries && Fails(snap) then s.(entries := s.entries[id := Failed(s.entries[id], snap)])
    else
      var e := Reread(Prior(s, id), HeldFor(s, id), snap);
      RereadStamps(Prior(s, id), HeldFor(s, id), snap);
      Quota(s.entries[id := e], if id in s.entries then s.pending else s.pending - {id}, s.logins, s.version + 1)
  }

  lemma PutWindowStamps(e: Entry, prior: Option<Entry>, w: Window, at: Option<int>)
    requires RingsOk(e) && StampsOk(e)
    ensures StampsOk(PutWindow(e, prior, w, at))
  {
    hide RingsOk, RingOk, Observe;
    var e', key, n := PutWindow(e, prior, w, at), KeyOf(w), |e.snap.windows|;
    assert KeyOf(e'.snap.windows[n]) == key && !Later(e'.seenAt[key], e'.snap.observedAt);
    forall i | 0 <= i < n
      ensures KeyOf(e'.snap.windows[i]) in e'.seenAt && !Later(e'.seenAt[KeyOf(e'.snap.windows[i])], e'.snap.observedAt)
    {
      assert e'.snap.windows[i] == e.snap.windows[i];
    }
  }

  lemma {:induction false} PutUpToStamps(e: Entry, prior: Option<Entry>, ws: seq<Window>, n: nat, at: Option<int>)
    requires RingsOk(e) && StampsOk(e) && n <= |ws|
    ensures StampsOk(PutUpTo(e, prior, ws, n, at))
  {
    hide RingsOk, StampsOk, PutWindow;
    if n > 0 {
      PutUpToStamps(e, prior, ws, n - 1, at);
      PutWindowStamps(PutUpTo(e, prior, ws, n - 1, at), prior, ws[n - 1], at);
    }
  }

  lemma OmitWindowSeen(e: Entry, prior: Option<Entry>, read: seq<Key>, key: Key, at: Option<int>, k: Key)
    requires RingsOk(e) && key in e.rings && Holds(e.snap.windows, k)
    ensures SeenAt(OmitWindow(e, prior, read, key, at), k) == SeenAt(e, k)
    ensures k in OmitWindow(e, prior, read, key, at).seenAt <==> k in e.seenAt
  {
    hide RingsOk, RingOk, ClearedRing, Holds;
  }

  lemma OnRecord(e: Entry, i: nat)
    requires RingsOk(e) && i < |e.order|
    ensures e.order[i] in e.rings
  {
    hide RingOk;
  }

  // A read's silence about other windows leaves the seen instant of each
  // window it carried.
  lemma {:induction false} OmitUpToSeen(e: Entry, prior: Option<Entry>, read: seq<Key>, n: nat, at: Option<int>, k: Key)
    requires RingsOk(e) && n <= |e.order| && Holds(e.snap.windows, k)
    ensures SeenAt(OmitUpTo(e, prior, read, n, at), k) == SeenAt(e, k)
    ensures k in OmitUpTo(e, prior, read, n, at).seenAt <==> k in e.seenAt
  {
    hide RingsOk, OmitWindow, SeenAt, Holds;
    if n > 0 {
      OnRecord(e, n - 1);
      OmitUpToSeen(e, prior, read, n - 1, at, k);
      OmitWindowSeen(OmitUpTo(e, prior, read, n - 1, at), prior, read, e.order[n - 1], at, k);
    }
  }

  lemma RereadStamps(prior: Option<Entry>, held: Option<Entry>, snap: Snapshot)
    requires held.Some? ==> RingsOk(held.value)
    ensures StampsOk(Reread(prior, held, snap))
  {
    hide RingsOk, PutUpTo, OmitUpTo, Reopened, Unscoped;
    var e0 := Reopened(prior, held, snap);
    var e1 := PutUpTo(e0, prior, snap.windows, |snap.windows|, snap.observedAt);
    PutUpToStamps(e0, prior, snap.windows, |snap.windows|, snap.observedAt);
    forall i | 0 <= i < |e1.snap.windows|
      ensures SeenAt(OmitUpTo(e1, prior, e0.read, |e1.order|, snap.observedAt), KeyOf(e1.snap.windows[i])) == SeenAt(e1, KeyOf(e1.snap.windows[i]))
      ensures KeyOf(e1.snap.windows[i]) in OmitUpTo(e1, prior, e0.read, |e1.order|, snap.observedAt).seenAt
    {
      OmitUpToSeen(e1, prior, e0.read, |e1.order|, snap.observedAt, KeyOf(e1.snap.windows[i]));
    }
  }

  // ----- a header reading

  // A header names no severity and may omit status, reset and length.
  function MergeReading(dst: Window, src: Window): (w: Window)
    ensures KeyOf(w) == KeyOf(dst) && w.util == src.util
  {
    dst.(util := src.util, active := src.active,
         resetsAt := if src.resetsAt.Some? then src.resetsAt else dst.resetsAt,
         duration := if src.duration > 0 then src.duration else dst.duration,
         status := if src.status != "" then src.status else dst.status,
         severity := if src.severity != "" then src.severity else dst.severity)
  }

  // An entry part way through a merge, with the window the last accepted
  // reading named active.
  datatype Merging = Merging(e: Entry, active: Option<Key>)

  // A reading older than the one the store holds for its window.
  predicate Late(e: Entry, w: Window, at: Option<int>) {
    KeyOf(w) in e.seenAt && Later(e.seenAt[KeyOf(w)], at)
  }

  function MergedWindows(ws: seq<Window>, w: Window): (out: seq<Window>)
    ensures |ws| <= |out|
  {
    var i := IndexOf(ws, KeyOf(w));
    if i.Some? then ws[i.value := MergeReading(ws[i.value], w)] else ws + [w]
  }

  function MergeOne(m: Merging, w: Window, at: Option<int>): (m': Merging)
    requires RingsOk(m.e)
    ensures RingsOk(m'.e)
  {
    if Late(m.e, w, at) then m
    else
      var e := if w.derived then m.e else Observe(m.e, at, w);
      Merging(e.(snap := e.snap.(windows := MergedWindows(e.snap.windows, w)), seenAt := e.seenAt[KeyOf(w) := at]),
              if w.active then Some(KeyOf(w)) else m.active)
  }

  // The entry after the first n readings.
  function MergeUpTo(e: Entry, ws: seq<Window>, n: nat, at: Option<int>): (m: Merging)
    requires RingsOk(e) && n <= |ws|
    ensures RingsOk(m.e)
  {
    if n == 0 then Merging(e, None) else MergeOne(MergeUpTo(e, ws, n - 1, at), ws[n - 1], at)
  }

  function OnlyActive(ws: seq<Window>, key: Key): (out: seq<Window>)
    ensures |out| == |ws|
    ensures forall i :: 0 <= i < |ws| ==> out[i] == if KeyOf(ws[i]) == key then ws[i] else ws[i].(active := false)
  {
    if ws == [] then []
    else OnlyActive(Front(ws), key) + [if KeyOf(Last(ws)) == key then Last(ws) else Last(ws).(active := false)]
  }

  // The windows merged into an entry without any are the headers' own.
  function Sourced(e: Entry): Entry {
    if e.snap.windows == [] then e.(snap := e.snap.(source := ResponseHeaders)) else e
  }

  function Merged(e: Entry, ws: seq<Window>, at: Option<int>): (e': Entry)
    requires RingsOk(e)
    ensures RingsOk(e')
  {
    var m := MergeUpTo(Sourced(e), ws, |ws|, at);
    m.e.(snap := m.e.snap.(windows := if m.active.Some? then OnlyActive(m.e.snap.windows, m.active.value) else m.e.snap.windows,
    observedAt := if Later(at, m.e.snap.observedAt) then at else m.e.snap.observedAt))
  }

  // A held reading made live: one from a file has every window seen at its
  // own instant.
  function Resumed(p: Entry): (e: Entry)
    requires HeldOk(p)
    ensures RingsOk(e) && StampsOk(e)
  {
    if p.seenAt == map[] then p.(seenAt := map w | w in p.snap.windows :: KeyOf(w) := p.snap.observedAt) else p
  }

  predicate Resumes(s: Quota, id: string) { id in s.pending && s.pending[id].snap.observedAt.Some? }

  // The entry headers are merged into.
  function Opening(s: Quota, id: string): (e: Entry)
    requires QuotaOk(s)
    ensures RingsOk(e) && StampsOk(e)
  {
    if id in s.entries then s.entries[id]
    else if Resumes(s, id) then Resumed(s.pending[id])
    else Reopened(None, HeldFor(s, id), Snapshot(id, "", "", [], None, ResponseHeaders, "", "")).(read := [])
  }

  function MergeHeaders(s: Quota, id: string, ws: seq<Window>, at: Option<int>): (s': Quota)
    requires QuotaOk(s)
    ensures QuotaOk(s')
  {
    if id == "" || ws == [] then s
    else
      var e := Opening(s, id);
      MergedStamps(e, ws, at);
      Quota(s.entries[id := Merged(e, ws, at)], if id in s.entries then s.pending else s.pending - {id}, s.logins, s.version + 1)
  }

  lemma MergeOneStamps(m: Merging, w: Window, at: Option<int>, cap: Option<int>)
    requires RingsOk(m.e) && StampsBy(m.e.snap.windows, m.e.seenAt, cap) && !Later(at, cap)
    ensures var e := MergeOne(m, w, at).e; StampsBy(e.snap.windows, e.seenAt, cap) && e.snap.observedAt == m.e.snap.observedAt
  {
    hide RingsOk, RingOk, Observe;
  }

  lemma {:induction false} MergeUpToStamps(e: Entry, ws: seq<Window>, n: nat, at: Option<int>, cap: Option<int>)
    requires RingsOk(e) && StampsBy(e.snap.windows, e.seenAt, cap) && !Later(at, cap) && n <= |ws|
    ensures var e' := MergeUpTo(e, ws, n, at).e; StampsBy(e'.snap.windows, e'.seenAt, cap) && e'.snap.observedAt == e.snap.observedAt
  {
    hide RingsOk, StampsBy, MergeOne;
    if n > 0 {
      MergeUpToStamps(e, ws, n - 1, at, cap);
      MergeOneStamps(MergeUpTo(e, ws, n - 1, at), ws[n - 1], at, cap);
    }
  }

  lemma MergedStamps(e: Entry, ws: seq<Window>, at: Option<int>)
    requires RingsOk(e) && StampsOk(e)
    ensures StampsOk(Merged(e, ws, at))
  {
    hide RingOk, MergeUpTo;
    var cap := if Later(at, e.snap.observedAt) then at else e.snap.observedAt;
    MergeUpToStamps(Sourced(e), ws, |ws|, at, cap);
  }

  // ----- refusals and served requests

  // When a refusal is expected to end: at the reset its reading names, else
  // at the stored window's, else after the window's length.
  function RefusedUntil(w: Window, stored: seq<Window>, at: int): Option<int> {
    var i := IndexOf(stored, KeyOf(w));
    var reset := if w.resetsAt.None? && i.Some? then stored[i.value].resetsAt else w.resetsAt;
    var length := if w.duration <= 0 && i.Some? then stored[i.value].duration else w.duration;
    if reset.None? && length > 0 then Some(at + length) else reset
  }

  // The entry after one refused reading, and whether a span changed. A ring
  // opens only with a span.
  function RefuseOne(e: Entry, w: Window, admitted: int, at: int): (r: (Entry, bool))
    requires RingsOk(e)
    ensures RingsOk(r.0) && r.0 == e.(rings := r.0.rings, order := r.0.order)
  {
    var until := RefusedUntil(w, e.snap.windows, at);
    if !Blocking(w) || until.None? then (e, false)
    else
      var ring := RingFor(e, KeyOf(w));
      RefuseOk(ring.spans, admitted, at, until.value, Oldest(ring.track.cycles));
      var (spans, changed) := Refuse(ring.spans, admitted, at, until.value, Oldest(ring.track.cycles));
      if changed || KeyOf(w) in e.rings then (WithRing(e, KeyOf(w), ring.(spans := spans)), changed) else (e, false)
  }

  // The entry after the first n readings, and how many changed a span.
  function RefuseUpTo(e: Entry, ws: seq<Window>, n: nat, admitted: int, at: int): (r: (Entry, nat))
    requires RingsOk(e) && n <= |ws|
    ensures RingsOk(r.0) && r.0 == e.(rings := r.0.rings, order := r.0.order)
  {
    if n == 0 then (e, 0)
    else
      var (e1, count) := RefuseUpTo(e, ws, n - 1, admitted, at);
      var (e2, changed) := RefuseOne(e1, ws[n - 1], admitted, at);
      (e2, count + if changed then 1 else 0)
  }

  function RecordRefusals(s: Quota, id: string, ws: seq<Window>, admitted: Option<int>, at: Option<int>): (s': Quota)
    requires QuotaOk(s)
    ensures QuotaOk(s')
  {
    if id == "" || at.None? || id !in s.entries then s
    else
      var (e, count) := RefuseUpTo(s.entries[id], ws, |ws|, if admitted.Some? then admitted.value else at.value, at.value);
      s.(entries := s.entries[id := e], version := s.version + count)
  }

  predicate Caps(key: Key, family: string) {
    BearsOn(Window(key.kind, key.scope, Fin(0.0), None, 0, "", "", false, false), family)
  }

  function ServeOne(e: Entry, key: Key, family: string, admitted: int, at: int): (r: (Entry, bool))
    requires RingsOk(e) && key in e.rings
    ensures RingsOk(r.0) && r.0 == e.(rings := r.0.rings) && r.0.rings.Keys == e.rings.Keys
  {
    if !Caps(key, family) then (e, false)
    else
      var ring := e.rings[key];
      ServeOk(ring.spans, admitted, at);
      var (spans, changed) := Serve(ring.spans, admitted, at);
      (e.(rings := e.rings[key := ring.(spans := spans)]), changed)
  }

  // The entry after the first n windows on record, and whether a span changed.
  function ServeUpTo(e: Entry, n: nat, family: string, admitted: int, at: int): (r: (Entry, bool))
    requires RingsOk(e) && n <= |e.order|
    ensures RingsOk(r.0) && r.0 == e.(rings := r.0.rings) && r.0.rings.Keys == e.rings.Keys
  {
    if n == 0 then (e, false)
    else
      var (e1, any) := ServeUpTo(e, n - 1, family, admitted, at);
      var (e2, changed) := ServeOne(e1, e.order[n - 1], family, admitted, at);
      (e2, any || changed)
  }

  // An admission at no instant comes after none, so it changes nothing.
  function MarkServed(s: Quota, id: string, family: string, admitted: Option<int>, at: Option<int>): (s': Quota)
    requires QuotaOk(s)
    ensures QuotaOk(s')
  {
    if id == "" || at.None? || admitted.None? || id !in s.entries then s
    else
      var (e, changed) := ServeUpTo(s.entries[id], |s.entries[id].order|, family, admitted.value, at.value);
      s.(entries := s.entries[id := e], version := s.version + if changed then 1 else 0)
  }

  // ----- listings

  function Among(m: map<string, Entry>, keep: set<string>): map<string, Entry> {
    map id | id in m && id in keep :: m[id]
  }

  // The dropped entries that hold a history.
  function Dropped(m: map<string, Entry>, keep: set<string>): map<string, Entry> {
    map id | id in m && id !in keep && m[id].order != [] :: m[id]
  }

  function Held(s: Quota, keep: set<string>): map<string, Entry> {
    Among(s.pending, keep) + Dropped(s.entries, keep)
  }

  lemma LiveIsHeld(s: Quota, id: string)
    requires QuotaOk(s) && id in s.entries
    ensures HeldOk(s.entries[id])
  {
    hide RingsOk, StampsOk;
  }

  lemma PruneOk(s: Quota, keep: set<string>, logins: set<string>, version: nat)
    requires QuotaOk(s)
    ensures QuotaOk(Quota(Among(s.entries, keep), Held(s, keep), logins, version))
  {
    hide RingsOk, StampsOk, HeldOk;
    forall id | id in Held(s, keep)
      ensures HeldOk(Held(s, keep)[id])
    {
      if id in s.entries && id !in keep && s.entries[id].order != [] {
        LiveIsHeld(s, id);
      }
    }
  }

  // The credentials a listing leaves out, and the logins it forgets.
  function Departed(m: map<string, Entry>, keep: set<string>): set<string> { m.Keys - keep }

  function Forgotten(logins: set<string>, keep: set<string>, pending: map<string, Entry>): set<string> {
    logins - keep - pending.Keys
  }

  function Prune(s: Quota, keep: set<string>): (s': Quota)
    requires QuotaOk(s)
    ensures QuotaOk(s')
  {
    var pending := Held(s, keep);
    var gone := Forgotten(s.logins, keep, pending);
    PruneOk(s, keep, s.logins - gone, s.version + |Departed(s.entries, keep)| + |gone|);
    Quota(Among(s.entries, keep), pending, s.logins - gone, s.version + |Departed(s.entries, keep)| + |gone|)
  }

  function Revived(s: Quota, ids: set<string>): map<string, Entry>
    requires forall id :: id in s.pending ==> HeldOk(s.pending[id])
  {
    map id | id in s.pending && id in ids && Resumes(s, id) :: Resumed(s.pending[id])
  }

  function Unrevived(s: Quota, ids: set<string>): map<string, Entry> {
    map id | id in s.pending && !(id in ids && Resumes(s, id)) :: s.pending[id]
  }

  function Restore(s: Quota, listed: set<string>): (s': Quota)
    requires QuotaOk(s)
    ensures QuotaOk(s')
  {
    s.(entries := s.entries + Revived(s, listed), pending := Unrevived(s, listed))
  }
}
