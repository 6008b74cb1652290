/** Whole runs of the snapshot store: the register of each window, the change
    count, and a credential that leaves a listing and comes back. */
module QuotaRuns {
  import opened Basics
  import opened Windows
  import opened History
  import opened HistoryInvariants
  import opened QuotaTable
  import opened QuotaRegister

  datatype Event =
    | Fetch(snap: Snapshot)
    | Headers(id: string, ws: seq<Window>, at: Option<int>)
    | Refused(id: string, ws: seq<Window>, admitted: Option<int>, at: Option<int>)
    | Answered(id: string, family: string, admitted: Option<int>, at: Option<int>)
    | Keep(keep: set<string>)
    | Relist(listed: set<string>)

  function Happens(s: Quota, e: Event): (s': Quota)
    requires QuotaOk(s)
    ensures QuotaOk(s')
  {
    match e
    case Fetch(snap) => PutSnapshot(s, snap)
    case Headers(id, ws, at) => MergeHeaders(s, id, ws, at)
    case Refused(id, ws, admitted, at) => RecordRefusals(s, id, ws, admitted, at)
    case Answered(id, family, admitted, at) => MarkServed(s, id, family, admitted, at)
    case Keep(keep) => Prune(s, keep)
    case Relist(listed) => Restore(s, listed)
  }

  // The store after a run. Every ring it records is sound, no window was seen
  // after its snapshot, and no credential is both live and held.
  function Runs(s: Quota, es: seq<Event>): (s': Quota)
    requires QuotaOk(s)
    ensures QuotaOk(s')
  {
    if es == [] then s else Happens(Runs(s, Front(es)), Last(es))
  }

  // Every window's history satisfies the ring and span invariants in every
  // state a run from the empty store reaches.
  lemma RunsKeepRings(es: seq<Event>, id: string, k: Key)
    ensures QuotaOk(EMPTY)
    ensures var s := Runs(EMPTY, es);
            && (id in s.entries && k in s.entries[id].rings ==> RingOk(s.entries[id].rings[k]))
            && (id in s.pending && k in s.pending[id].rings ==> RingOk(s.pending[id].rings[k]))
  {
    hide RingOk, StampsOk;
    assert QuotaOk(EMPTY);
  }

  // ----- newest reading wins

  function SlotIn(s: Quota, id: string, k: Key): Option<Slot> {
    if id in s.entries then SlotOf(s.entries[id], k) else None
  }

  // What an event says of a window of a credential.
  function NewsOf(s: Quota, e: Event, id: string, k: Key): seq<News> {
    match e
    case Fetch(snap) =>
      if snap.authID == id && !(id in s.entries && Fails(snap)) then [NewsOfRead(HeldFor(s, id), snap, k)] else []
    case Headers(id', ws, at) => if id' == id then Carried(ws, |ws|, at, k) else []
    case _ => []
  }

  function NewsIn(s: Quota, es: seq<Event>, id: string, k: Key): seq<News>
    requires QuotaOk(s)
  {
    if es == [] then [] else NewsIn(s, Front(es), id, k) + NewsOf(Runs(s, Front(es)), Last(es), id, k)
  }

  // A read of the credential reports each window once and does not bring this
  // one back from before it was left out; a listing keeps the credential.
  ghost predicate InTurn(s: Quota, e: Event, id: string, k: Key) {
    match e
    case Fetch(snap) => snap.authID == id ==> Distinct(snap.windows) && !BringsBack(Prior(s, id), snap, k)
    case Keep(keep) => id in keep
    case _ => true
  }

  ghost predicate AllInTurn(s: Quota, es: seq<Event>, id: string, k: Key)
    requires QuotaOk(s)
  {
    es == [] || (AllInTurn(s, Front(es), id, k) && InTurn(Runs(s, Front(es)), Last(es), id, k))
  }

  // The credential is live or holds no reading to resume.
  ghost predicate Known(s: Quota, id: string) { id != "" && (id in s.entries || !Resumes(s, id)) }

  lemma FetchEntry(s: Quota, snap: Snapshot, id: string)
    requires QuotaOk(s) && Known(s, id)
    ensures Known(PutSnapshot(s, snap), id)
    ensures Prior(PutSnapshot(s, snap), id) ==
            if snap.authID != id then Prior(s, id)
            else if id in s.entries && Fails(snap) then Some(Failed(s.entries[id], snap))
            else Some(Reread(Prior(s, id), HeldFor(s, id), snap))
    ensures HeldFor(s, id).Some? ==> RingsOk(HeldFor(s, id).value)
  {
    hide RingsOk, StampsOk, Reread;
  }

  // A read of distinct windows is heard as a register hears it exactly when it
  // does not bring the window back.
  lemma FetchSlot(s: Quota, snap: Snapshot, id: string, k: Key)
    requires QuotaOk(s) && Known(s, id) && (snap.authID == id ==> Distinct(snap.windows))
    ensures Known(PutSnapshot(s, snap), id)
    ensures SlotIn(PutSnapshot(s, snap), id, k) == HearAll(SlotIn(s, id, k), NewsOf(s, Fetch(snap), id, k)) <==>
            snap.authID != id || !BringsBack(Prior(s, id), snap, k)
  {
    hide QuotaOk, PutSnapshot, Known, Reread, Distinct, Hear, NewsOfRead, SlotOf;
    FetchEntry(s, snap, id);
    if snap.authID == id {
      if id in s.entries && Fails(snap) {
        FailedSlot(s.entries[id], snap, k);
      } else {
        var x := NewsOfRead(HeldFor(s, id), snap, k);
        RereadHears(Prior(s, id), HeldFor(s, id), snap, k);
        HearSnoc(SlotIn(s, id, k), [], x);
        assert [] + [x] == [x];
      }
    }
  }

  lemma FailedSlot(e: Entry, snap: Snapshot, k: Key)
    ensures SlotOf(Failed(e, snap), k) == SlotOf(e, k)
    ensures Fails(snap) ==> !BringsBack(Some(e), snap, k)
  {
    hide IndexOf;
    NoIndex([], k);
  }

  lemma NoneCarried(ws: seq<Window>, at: Option<int>, k: Key)
    ensures ws == [] ==> Carried(ws, |ws|, at, k) == []
  {
  }

  lemma HeadersSlot(s: Quota, id': string, ws: seq<Window>, at: Option<int>, id: string, k: Key)
    requires QuotaOk(s) && Known(s, id)
    ensures Known(MergeHeaders(s, id', ws, at), id)
    ensures SlotIn(MergeHeaders(s, id', ws, at), id, k) == HearAll(SlotIn(s, id, k), NewsOf(s, Headers(id', ws, at), id, k))
  {
    hide RingsOk, StampsOk, Merged, SlotOf, Hear;
    if id' == id && ws != [] {
      if id !in s.entries {
        NothingHeld(Opening(s, id), k);
      }
      MergedSlot(Opening(s, id), ws, at, k);
    } else {
      NoneCarried(ws, at, k);
    }
  }

  // Refusals and served requests touch no window's reading.
  lemma SpansSlot(s: Quota, e: Event, id: string, k: Key)
    requires QuotaOk(s) && Known(s, id) && (e.Refused? || e.Answered?)
    ensures Known(Happens(s, e), id) && SlotIn(Happens(s, e), id, k) == SlotIn(s, id, k)
  {
    hide RingsOk, StampsOk, IndexOf, RefuseUpTo, ServeUpTo;
  }

  // Nor does a listing that keeps the credential, or one that brings others
  // back.
  lemma KeepSlot(s: Quota, keep: set<string>, id: string, k: Key)
    requires QuotaOk(s) && Known(s, id) && id in keep
    ensures Known(Prune(s, keep), id) && SlotIn(Prune(s, keep), id, k) == SlotIn(s, id, k)
  {
    hide RingsOk, StampsOk, HeldOk, SlotOf;
  }

  lemma RelistSlot(s: Quota, listed: set<string>, id: string, k: Key)
    requires QuotaOk(s) && Known(s, id)
    ensures Known(Restore(s, listed), id) && SlotIn(Restore(s, listed), id, k) == SlotIn(s, id, k)
  {
    hide RingsOk, StampsOk, HeldOk, Resumed, SlotOf;
  }

  lemma StepSlot(s: Quota, e: Event, id: string, k: Key)
    requires QuotaOk(s) && Known(s, id) && InTurn(s, e, id, k)
    ensures Known(Happens(s, e), id)
    ensures SlotIn(Happens(s, e), id, k) == HearAll(SlotIn(s, id, k), NewsOf(s, e, id, k))
  {
    hide QuotaOk, Known, SlotIn, BringsBack, PutSnapshot, MergeHeaders, RecordRefusals, MarkServed, Prune, Restore;
    match e
    case Fetch(snap) => FetchSlot(s, snap, id, k);
    case Headers(id', ws, at) => HeadersSlot(s, id', ws, at, id, k);
    case Refused(_, _, _, _) => SpansSlot(s, e, id, k);
    case Answered(_, _, _, _) => SpansSlot(s, e, id, k);
    case Keep(keep) => KeepSlot(s, keep, id, k);
    case Relist(listed) => RelistSlot(s, listed, id, k);
  }

  // Over any interleaving of usage reads of distinct windows, whether or not
  // they carry the window, with header merges, refusals, served requests and
  // listings, what the store knows of the window is what a newest-reading
  // register that heard of it in that order knows; short of a read that brings
  // it back from before it was left out.
  lemma {:induction false} NewestReadingWins(s: Quota, es: seq<Event>, id: string, k: Key)
    requires QuotaOk(s) && Known(s, id) && AllInTurn(s, es, id, k)
    ensures Known(Runs(s, es), id)
    ensures SlotIn(Runs(s, es), id, k) == HearAll(SlotIn(s, id, k), NewsIn(s, es, id, k))
  {
    hide QuotaOk, Known, SlotIn, InTurn, NewsOf, Happens;
    if es != [] {
      NewestReadingWins(s, Front(es), id, k);
      StepSlot(Runs(s, Front(es)), Last(es), id, k);
      HearConcat(SlotIn(s, id, k), NewsIn(s, Front(es), id, k), NewsOf(Runs(s, Front(es)), Last(es), id, k));
    }
  }

  // So from the empty store a utilization it holds is that of one of the run's
  // readings: nothing since the window was last lost is later, and all after
  // it are earlier readings.
  lemma NewestFromEmpty(es: seq<Event>, id: string, k: Key) returns (i: nat)
    requires QuotaOk(EMPTY) && id != "" && AllInTurn(EMPTY, es, id, k)
    requires SlotIn(Runs(EMPTY, es), id, k).Some? && SlotIn(Runs(EMPTY, es), id, k).value.util.Some?
    ensures var xs := NewsIn(EMPTY, es, id, k);
            && i < |xs| && xs[i].Seen? && SlotIn(Runs(EMPTY, es), id, k) == Some(Slot(xs[i].at, Some(xs[i].util)))
            && (forall j :: i < j < |xs| ==> xs[j].Seen? && Later(xs[i].at, xs[j].at))
            && (forall j :: 0 <= j < i && (forall l :: j <= l < i ==> !xs[l].Lost?) ==> !Later(xs[j].at, xs[i].at))
  {
    hide AllInTurn, NewsIn, Runs;
    NewestReadingWins(EMPTY, es, id, k);
    i := HeldIsNewest(NewsIn(EMPTY, es, id, k));
  }

  // The instant the store has for a window never decreases while no read
  // loses it.
  lemma InstantNeverFalls(s: Quota, es: seq<Event>, id: string, k: Key)
    requires QuotaOk(s) && Known(s, id) && AllInTurn(s, es, id, k) && SlotIn(s, id, k).Some?
    requires forall j :: 0 <= j < |NewsIn(s, es, id, k)| ==> !NewsIn(s, es, id, k)[j].Lost?
    ensures var slot := SlotIn(Runs(s, es), id, k); slot.Some? && !Later(SlotIn(s, id, k).value.at, slot.value.at)
  {
    hide AllInTurn, NewsIn, Runs, QuotaOk, Known, SlotIn;
    NewestReadingWins(s, es, id, k);
    HearKeepsOn(SlotIn(s, id, k), NewsIn(s, es, id, k));
  }

  // ----- a read that brings a window back

  const FIVE_HOUR := Key(Session, "")

  function Bare(kind: Kind, util: Float): Window { Window(kind, "", util, None, 0, "", "", false, false) }

  function ReadOf(at: int, ws: seq<Window>): Snapshot { Snapshot("a", "", "", ws, Some(at), UsageEndpoint, "", "") }

  // Headers report the 5-hour window; a read stamped before them leaves it out;
  // a later read stamped before them carries it.
  function BackRun(seen: int, left: int, back: int, u: Float): seq<Event> {
    [Headers("a", [Bare(Session, u)], Some(seen)), Fetch(ReadOf(left, [Bare(Weekly, u)])), Fetch(ReadOf(back, [Bare(Session, u)]))]
  }

  lemma RunsNext(s: Quota, es: seq<Event>, n: nat)
    requires QuotaOk(s) && n < |es|
    ensures Runs(s, es[..n + 1]) == Happens(Runs(s, es[..n]), es[n])
  {
    hide QuotaOk, Happens;
    assert Front(es[..n + 1]) == es[..n];
  }

  // A merge of one reading that counts puts its window on record.
  lemma MergeRecords(e: Entry, w: Window, at: Option<int>)
    requires RingsOk(e) && !Late(e, w, at) && !w.derived
    ensures KeyOf(w) in Merged(e, [w], at).order
  {
    hide RingOk, Late, MergedWindows, OnlyActive;
    var s := Sourced(e);
    assert MergeUpTo(s, [w], 1, at) == MergeOne(MergeUpTo(s, [w], 0, at), w, at);
    SourcedLate(e, w, at);
  }

  lemma SourcedLate(e: Entry, w: Window, at: Option<int>)
    ensures Late(Sourced(e), w, at) == Late(e, w, at)
  {
  }

  lemma HeadersRecord(seen: int, u: Float)
    requires QuotaOk(EMPTY)
    ensures var s := MergeHeaders(EMPTY, "a", [Bare(Session, u)], Some(seen));
            && "a" in s.entries && FIVE_HOUR in s.entries["a"].order && SlotIn(s, "a", FIVE_HOUR) == Some(Slot(Some(seen), Some(u)))
  {
    hide QuotaOk, RingsOk, StampsOk, SlotOf, Merged, Carried;
    var w := Bare(Session, u);
    HeadersSlot(EMPTY, "a", [w], Some(seen), "a", FIVE_HOUR);
    OneCarried(w, Some(seen));
    HearSnoc(None, [], Seen(Some(seen), u));
    assert [] + [Seen(Some(seen), u)] == [Seen(Some(seen), u)];
    MergeRecords(Opening(EMPTY, "a"), w, Some(seen));
  }

  lemma OneCarried(w: Window, at: Option<int>)
    ensures Carried([w], 1, at, KeyOf(w)) == [Seen(at, w.util)]
  {
    assert Carried([w], 0, at, KeyOf(w)) == [];
  }

  // The store's instant for the window falls, and the earlier reading stands.
  lemma BroughtBack(seen: int, left: int, back: int, u: Float)
    requires left < seen && back < seen
    ensures QuotaOk(EMPTY)
    ensures SlotIn(Runs(EMPTY, BackRun(seen, left, back, u)[..2]), "a", FIVE_HOUR) == Some(Slot(Some(seen), None))
    ensures SlotIn(Runs(EMPTY, BackRun(seen, left, back, u)), "a", FIVE_HOUR) == Some(Slot(Some(back), Some(u)))
  {
    hide QuotaOk, Reread, MergeHeaders, SlotOf, IndexOf, Runs;
    EmptyOk();
    var es := BackRun(seen, left, back, u);
    RunsNext(EMPTY, es, 0);
    RunsNext(EMPTY, es, 1);
    RunsNext(EMPTY, es, 2);
    RunsNone(EMPTY);
    assert es[..0] == [] && es[..3] == es;
    HeadersRecord(seen, u);
    var s1 := Happens(EMPTY, es[0]);
    HeldSound(s1, "a");
    NoIndex(es[1].snap.windows, FIVE_HOUR);
    assert es[1].snap.windows[0] in es[1].snap.windows;
    RereadOmits(Prior(s1, "a"), HeldFor(s1, "a"), es[1].snap, FIVE_HOUR);
    var s2 := Happens(s1, es[1]);
    HeldSound(s2, "a");
    RereadCarries(Prior(s2, "a"), HeldFor(s2, "a"), es[2].snap, 0);
  }

  lemma RunsNone(s: Quota)
    requires QuotaOk(s)
    ensures Runs(s, []) == s
  {
    hide QuotaOk;
  }

  lemma EmptyOk()
    ensures QuotaOk(EMPTY)
  {
  }

  // ----- windows stay distinct

  ghost predicate DistinctAll(s: Quota) {
    && (forall id :: id in s.entries ==> Distinct(s.entries[id].snap.windows))
    && (forall id :: id in s.pending ==> Distinct(s.pending[id].snap.windows))
  }

  lemma DistinctRead(prior: Option<Entry>, held: Option<Entry>, snap: Snapshot)
    requires (held.Some? ==> RingsOk(held.value)) && Distinct(snap.windows)
    ensures Distinct(Reread(prior, held, snap).snap.windows)
  {
    hide RingsOk, PutUpTo, OmitUpTo, Unscoped;
    PutUpToKeys(Reopened(prior, held, snap), prior, snap.windows, |snap.windows|, snap.observedAt);
  }

  lemma NoneDistinct()
    ensures Distinct([])
  {
  }

  lemma DistinctOpening(s: Quota, id: string)
    requires QuotaOk(s) && DistinctAll(s)
    ensures Distinct(Opening(s, id).snap.windows)
  {
    hide RingsOk, StampsOk, Distinct;
    NoneDistinct();
  }

  lemma DistinctReplaced(s: Quota, id: string, e: Entry, gone: set<string>, version: nat)
    requires DistinctAll(s) && Distinct(e.snap.windows)
    ensures DistinctAll(Quota(s.entries[id := e], s.pending - gone, s.logins, version))
    ensures DistinctAll(s.(entries := s.entries[id := e], version := version))
  {
    hide Distinct;
  }

  lemma DistinctFetch(s: Quota, snap: Snapshot)
    requires QuotaOk(s) && DistinctAll(s) && Distinct(snap.windows)
    ensures DistinctAll(PutSnapshot(s, snap))
  {
    hide QuotaOk, DistinctAll, Distinct, Reread;
    var id := snap.authID;
    HeldSound(s, id);
    DistinctRead(Prior(s, id), HeldFor(s, id), snap);
    DistinctReplaced(s, id, Reread(Prior(s, id), HeldFor(s, id), snap), {id}, s.version + 1);
    DistinctReplaced(s, id, Reread(Prior(s, id), HeldFor(s, id), snap), {}, s.version + 1);
    if id in s.entries {
      DistinctLive(s, id);
      DistinctReplaced(s, id, Failed(s.entries[id], snap), {}, s.version);
    }
  }

  lemma DistinctLive(s: Quota, id: string)
    requires DistinctAll(s) && id in s.entries
    ensures Distinct(s.entries[id].snap.windows)
  {
  }

  lemma DistinctHeaders(s: Quota, id: string, ws: seq<Window>, at: Option<int>)
    requires QuotaOk(s) && DistinctAll(s)
    ensures DistinctAll(MergeHeaders(s, id, ws, at))
  {
    hide QuotaOk, DistinctAll, Distinct, Merged, Opening;
    DistinctOpening(s, id);
    DistinctMerge(Opening(s, id), ws, at);
    DistinctReplaced(s, id, Merged(Opening(s, id), ws, at), {id}, s.version + 1);
    DistinctReplaced(s, id, Merged(Opening(s, id), ws, at), {}, s.version + 1);
  }

  lemma DistinctSpans(s: Quota, e: Event)
    requires QuotaOk(s) && DistinctAll(s) && (e.Refused? || e.Answered?)
    ensures DistinctAll(Happens(s, e))
  {
    hide RingsOk, StampsOk, HeldOk, Distinct, RefuseUpTo, ServeUpTo;
  }

  lemma DistinctKeep(s: Quota, keep: set<string>)
    requires QuotaOk(s) && DistinctAll(s)
    ensures DistinctAll(Prune(s, keep))
  {
    hide QuotaOk, Distinct, Departed, Forgotten;
  }

  lemma DistinctRelist(s: Quota, listed: set<string>)
    requires QuotaOk(s) && DistinctAll(s)
    ensures DistinctAll(Restore(s, listed))
  {
    hide RingsOk, StampsOk, HeldOk, Distinct, Resumed;
    var s' := Restore(s, listed);
    forall id | id in s'.entries
      ensures Distinct(s'.entries[id].snap.windows)
    {
      if id in s.pending { ResumedWindows(s.pending[id]); }
    }
  }

  lemma ResumedWindows(p: Entry)
    requires HeldOk(p)
    ensures Resumed(p).snap == p.snap
  {
  }

  // One event keeps every credential's windows distinct, live or held, as long
  // as a read reports each once.
  lemma DistinctStep(s: Quota, e: Event)
    requires QuotaOk(s) && DistinctAll(s) && (e.Fetch? ==> Distinct(e.snap.windows))
    ensures DistinctAll(Happens(s, e))
  {
    hide QuotaOk, DistinctAll, Distinct, PutSnapshot, MergeHeaders, RecordRefusals, MarkServed, Prune, Restore;
    match e
    case Fetch(snap) => DistinctFetch(s, snap);
    case Headers(id, ws, at) => DistinctHeaders(s, id, ws, at);
    case Refused(_, _, _, _) => DistinctSpans(s, e);
    case Answered(_, _, _, _) => DistinctSpans(s, e);
    case Keep(keep) => DistinctKeep(s, keep);
    case Relist(listed) => DistinctRelist(s, listed);
  }

  lemma {:induction false} DistinctInRuns(es: seq<Event>)
    requires QuotaOk(EMPTY) && forall i :: 0 <= i < |es| && es[i].Fetch? ==> Distinct(es[i].snap.windows)
    ensures DistinctAll(Runs(EMPTY, es))
  {
    hide QuotaOk, Distinct, Happens;
    if es != [] {
      DistinctInRuns(Front(es));
      DistinctStep(Runs(EMPTY, Front(es)), Last(es));
    }
  }

  // ----- the change count

  // What a save writes of a credential.
  datatype Saved = Saved(order: seq<Key>, cycles: map<Key, seq<Cycle>>, locks: map<Key, seq<Lock>>)

  function SavedEntry(e: Entry): Saved {
    Saved(e.order, map k | k in e.rings :: e.rings[k].track.cycles, map k | k in e.rings :: e.rings[k].spans.locks)
  }

  function HistoriesOf(s: Quota): map<string, Saved> {
    map id | id in s.entries.Keys + s.pending.Keys :: SavedEntry(if id in s.entries then s.entries[id] else s.pending[id])
  }

  // A save: the histories of every credential, and whose login is recorded.
  datatype Save = Save(histories: map<string, Saved>, logins: set<string>)

  function SaveOf(s: Quota): Save { Save(HistoriesOf(s), s.logins) }

  // A refusal that reports no change leaves the spans.
  lemma UnchangedByRefusal(sp: Spans, admitted: int, at: int, until: int, oldest: Option<int>)
    requires SpansOk(sp) && !Refuse(sp, admitted, at, until, oldest).1
    ensures Refuse(sp, admitted, at, until, oldest).0.locks == sp.locks
  {
    hide Truncate, TrimLocks, LocksOk, Push;
    if sp.locks != [] {
      LastLock(sp.locks);
      assert sp.locks == Front(sp.locks) + [Last(sp.locks)];
    }
  }

  // Nor does a served request that reports none.
  lemma UnchangedByServed(sp: Spans, admitted: int, at: int)
    requires !Serve(sp, admitted, at).1
    ensures Serve(sp, admitted, at).0.locks == sp.locks
  {
    hide Truncate;
  }

  lemma SavedSpans(e: Entry, k: Key, r: Ring)
    requires k in e.rings && r.track == e.rings[k].track && r.spans.locks == e.rings[k].spans.locks
    ensures SavedEntry(e.(rings := e.rings[k := r])) == SavedEntry(e)
  {
  }

  lemma RefuseOneSaved(e: Entry, w: Window, admitted: int, at: int)
    requires RingsOk(e) && !RefuseOne(e, w, admitted, at).1
    ensures SavedEntry(RefuseOne(e, w, admitted, at).0) == SavedEntry(e)
  {
    hide RingOk, Refuse, SavedEntry, RefusedUntil;
    var until := RefusedUntil(w, e.snap.windows, at);
    if Blocking(w) && until.Some? && KeyOf(w) in e.rings {
      var ring := e.rings[KeyOf(w)];
      SoundSpans(ring);
      UnchangedByRefusal(ring.spans, admitted, at, until.value, Oldest(ring.track.cycles));
      SavedSpans(e, KeyOf(w), ring.(spans := Refuse(ring.spans, admitted, at, until.value, Oldest(ring.track.cycles)).0));
    }
  }

  lemma SoundSpans(r: Ring)
    requires RingOk(r)
    ensures SpansOk(r.spans)
  {
  }

  lemma {:induction false} RefuseUpToSaved(e: Entry, ws: seq<Window>, n: nat, admitted: int, at: int)
    requires RingsOk(e) && n <= |ws| && RefuseUpTo(e, ws, n, admitted, at).1 == 0
    ensures SavedEntry(RefuseUpTo(e, ws, n, admitted, at).0) == SavedEntry(e)
  {
    hide RingsOk, RefuseOne, SavedEntry;
    if n > 0 {
      RefuseUpToSaved(e, ws, n - 1, admitted, at);
      RefuseOneSaved(RefuseUpTo(e, ws, n - 1, admitted, at).0, ws[n - 1], admitted, at);
    }
  }

  lemma ServeOneSaved(e: Entry, k: Key, family: string, admitted: int, at: int)
    requires RingsOk(e) && k in e.rings && !ServeOne(e, k, family, admitted, at).1
    ensures SavedEntry(ServeOne(e, k, family, admitted, at).0) == SavedEntry(e)
  {
    hide RingOk, Serve, SavedEntry, Caps;
    if Caps(k, family) {
      var ring := e.rings[k];
      UnchangedByServed(ring.spans, admitted, at);
      SavedSpans(e, k, ring.(spans := Serve(ring.spans, admitted, at).0));
    }
  }

  lemma {:induction false} ServeUpToSaved(e: Entry, n: nat, family: string, admitted: int, at: int)
    requires RingsOk(e) && n <= |e.order| && !ServeUpTo(e, n, family, admitted, at).1
    ensures SavedEntry(ServeUpTo(e, n, family, admitted, at).0) == SavedEntry(e)
  {
    hide RingOk, ServeOne, SavedEntry;
    if n > 0 {
      ServeUpToSaved(e, n - 1, family, admitted, at);
      ServeOneSaved(ServeUpTo(e, n - 1, family, admitted, at).0, e.order[n - 1], family, admitted, at);
    }
  }

  lemma SavedReplaced(s: Quota, id: string, e: Entry, version: nat)
    requires id in s.entries && SavedEntry(e) == SavedEntry(s.entries[id])
    ensures HistoriesOf(s.(entries := s.entries[id := e], version := version)) == HistoriesOf(s)
  {
    hide SavedEntry;
  }

  // An event that leaves the count leaves what a save would write, so a save
  // keyed on the count loses nothing; except that a listing forgets the held
  // histories outside it without counting them.
  lemma CountTellsChanges(s: Quota, e: Event)
    requires QuotaOk(s) && Happens(s, e).version == s.version
    ensures SaveOf(Happens(s, e)) == SaveOf(s) <==> (e.Keep? ==> s.pending.Keys <= e.keep)
  {
    hide RingsOk, StampsOk, SavedEntry, RefuseUpTo, ServeUpTo, HistoriesOf, Failed, Prune, Restore;
    match e
    case Fetch(snap) =>
      if snap.authID in s.entries {
        FailedSaved(s.entries[snap.authID], snap);
        SavedReplaced(s, snap.authID, Failed(s.entries[snap.authID], snap), s.version);
      }
    case Headers(_, _, _) =>
    case Refused(id, ws, admitted, at) =>
      if id != "" && at.Some? && id in s.entries {
        var first := if admitted.Some? then admitted.value else at.value;
        RefuseUpToSaved(s.entries[id], ws, |ws|, first, at.value);
        SavedReplaced(s, id, RefuseUpTo(s.entries[id], ws, |ws|, first, at.value).0, s.version);
      }
    case Answered(id, family, admitted, at) =>
      if id != "" && at.Some? && admitted.Some? && id in s.entries {
        ServeUpToSaved(s.entries[id], |s.entries[id].order|, family, admitted.value, at.value);
        SavedReplaced(s, id, ServeUpTo(s.entries[id], |s.entries[id].order|, family, admitted.value, at.value).0, s.version);
      }
    case Keep(keep) =>
      PruneSaved(s, keep);
      NothingCounted(s, keep);
    case Relist(listed) =>
      RestoreSaved(s, listed);
  }

  // The exception happens: of a credential missing from two listings in a row
  // the second forgets the history, and moves the count exactly when it also
  // forgets a login.
  lemma SecondAbsenceUncounted(s: Quota, keep: set<string>, id: string)
    requires QuotaOk(s) && id in s.entries && s.entries[id].order != [] && id !in keep
    ensures var away := Prune(s, keep);
            && HistoriesOf(Prune(away, keep)) != HistoriesOf(away)
            && (Prune(away, keep).version == away.version <==> away.logins <= keep)
  {
    hide QuotaOk, Prune, SavedEntry;
    var away := Prune(s, keep);
    Unlisted(s, keep, id);
    Unlisted(away, keep, id);
    assert id in HistoriesOf(away) && id !in HistoriesOf(Prune(away, keep));
    NobodyDeparts(s, keep);
    CountsLogins(away, keep);
  }

  lemma NobodyDeparts(s: Quota, keep: set<string>)
    requires QuotaOk(s)
    ensures Prune(s, keep).entries.Keys <= keep
  {
    hide QuotaOk;
  }

  lemma HeldWithin(s: Quota, keep: set<string>)
    requires s.entries.Keys <= keep
    ensures Held(s, keep).Keys <= keep && Departed(s.entries, keep) == {}
  {
  }

  lemma ForgottenOutside(logins: set<string>, keep: set<string>, pending: map<string, Entry>)
    requires pending.Keys <= keep
    ensures |Forgotten(logins, keep, pending)| == 0 <==> logins <= keep
  {
    assert Forgotten(logins, keep, pending) == logins - keep;
    NoneGone(logins, keep);
    assert logins <= keep ==> logins - keep == {};
  }

  // With no live credential outside it, a listing counts the logins outside
  // it and nothing else.
  lemma CountsLogins(s: Quota, keep: set<string>)
    requires QuotaOk(s) && s.entries.Keys <= keep
    ensures Prune(s, keep).version == s.version <==> s.logins <= keep
  {
    hide QuotaOk, Held, Departed, Forgotten, Among;
    HeldWithin(s, keep);
    ForgottenOutside(s.logins, keep, Held(s, keep));
  }

  lemma FailedSaved(e: Entry, snap: Snapshot)
    ensures SavedEntry(Failed(e, snap)) == SavedEntry(e)
  {
  }

  lemma ResumedSaved(p: Entry)
    requires HeldOk(p)
    ensures SavedEntry(Resumed(p)) == SavedEntry(p)
  {
  }

  lemma RestoreSaved(s: Quota, listed: set<string>)
    requires QuotaOk(s)
    ensures HistoriesOf(Restore(s, listed)) == HistoriesOf(s) && Restore(s, listed).logins == s.logins
  {
    hide RingsOk, StampsOk, HeldOk, SavedEntry, Resumed;
    var s' := Restore(s, listed);
    forall id | id in s.entries.Keys + s.pending.Keys
      ensures id in HistoriesOf(s') && HistoriesOf(s')[id] == HistoriesOf(s)[id]
    {
      if id in s.pending {
        ResumedSaved(s.pending[id]);
      }
    }
    assert HistoriesOf(s').Keys == HistoriesOf(s).Keys;
  }

  lemma AllKept(m: map<string, Entry>, keep: set<string>)
    requires m.Keys <= keep
    ensures Among(m, keep) == m && Dropped(m, keep) == map[]
  {
  }

  lemma NoneGone(ids: set<string>, keep: set<string>)
    ensures |ids - keep| == 0 ==> ids <= keep
  {
    if |ids - keep| == 0 {
      assert ids - keep == {};
      assert forall id :: id in ids ==> id in keep || id in ids - keep;
    }
  }

  // A listing that counts nothing only drops held entries.
  lemma NothingCounted(s: Quota, keep: set<string>)
    requires QuotaOk(s) && Prune(s, keep).version == s.version
    ensures Prune(s, keep).entries == s.entries && Prune(s, keep).pending == Among(s.pending, keep)
    ensures Prune(s, keep).logins == s.logins
  {
    hide QuotaOk, Among, Dropped, Forgotten;
    assert Forgotten(s.logins, keep, Held(s, keep)) == {};
    NoneGone(s.entries.Keys, keep);
    AllKept(s.entries, keep);
    assert Among(s.pending, keep) + map[] == Among(s.pending, keep);
  }

  lemma Apart(s: Quota)
    requires QuotaOk(s)
    ensures s.entries.Keys !! s.pending.Keys
  {
  }

  lemma PruneSaved(s: Quota, keep: set<string>)
    requires QuotaOk(s) && Prune(s, keep).version == s.version
    ensures HistoriesOf(Prune(s, keep)) == HistoriesOf(s) <==> s.pending.Keys <= keep
  {
    hide QuotaOk, Prune, HistoriesOf, Among;
    Apart(s);
    NothingCounted(s, keep);
    PendingSaved(s, Prune(s, keep), keep);
  }

  lemma PendingSaved(s: Quota, s': Quota, keep: set<string>)
    requires s'.entries == s.entries && s'.pending == Among(s.pending, keep) && s.entries.Keys !! s.pending.Keys
    ensures HistoriesOf(s') == HistoriesOf(s) <==> s.pending.Keys <= keep
  {
    hide SavedEntry;
    if s.pending.Keys <= keep {
      AllKept(s.pending, keep);
    } else {
      var id :| id in s.pending.Keys && id !in keep;
      assert id in HistoriesOf(s) && id !in HistoriesOf(s');
    }
  }

  // ----- listings

  // A listing without a live credential holds its entry, if it records any
  // history; one without a held credential forgets it; one with it keeps it.
  lemma Unlisted(s: Quota, keep: set<string>, id: string)
    requires QuotaOk(s) && id !in keep
    ensures id !in Prune(s, keep).entries
    ensures id in s.entries && s.entries[id].order != [] ==> id in Prune(s, keep).pending && Prune(s, keep).pending[id] == s.entries[id]
    ensures id !in s.entries ==> id !in Prune(s, keep).pending
  {
    hide RingsOk, StampsOk, HeldOk;
  }

  lemma StillHeld(s: Quota, keep: set<string>, id: string)
    requires QuotaOk(s) && id in keep && id in s.pending
    ensures id in Prune(s, keep).pending && Prune(s, keep).pending[id] == s.pending[id]
  {
    hide RingsOk, StampsOk, HeldOk;
  }

  lemma Relisted(s: Quota, listed: set<string>, id: string)
    requires QuotaOk(s) && Resumes(s, id) && id in listed
    ensures id in Restore(s, listed).entries && Restore(s, listed).entries[id] == Resumed(s.pending[id])
  {
    hide RingsOk, StampsOk, HeldOk, Resumed;
  }

  // A credential that leaves one listing and is back in the next has its
  // entry again, readings, histories, refusal and served admissions included;
  // one that stays out is forgotten.
  lemma LeavesAndReturns(s: Quota, keep: set<string>, next: set<string>, id: string)
    requires QuotaOk(s) && id in s.entries && id !in keep
    requires s.entries[id].order != [] && s.entries[id].snap.observedAt.Some?
    ensures var away := Prune(Prune(s, keep), next);
            if id in next then id in Restore(away, next).entries && Restore(away, next).entries[id] == s.entries[id]
            else id !in away.entries && id !in away.pending
  {
    hide QuotaOk, Prune, Restore, Resumed;
    var away := Prune(s, keep);
    Unlisted(s, keep, id);
    if id in next {
      StillHeld(away, next, id);
      Relisted(Prune(away, next), next, id);
      LiveStamps(s, id);
      ResumedSame(s.entries[id]);
    } else {
      Unlisted(away, next, id);
    }
  }

  lemma LiveStamps(s: Quota, id: string)
    requires QuotaOk(s) && id in s.entries
    ensures HeldOk(s.entries[id]) && StampsOk(s.entries[id])
  {
    hide RingsOk, StampsOk;
  }

  lemma ResumedSame(e: Entry)
    requires HeldOk(e) && StampsOk(e)
    ensures Resumed(e) == e
  {
    assert e.snap.windows == [] || KeyOf(e.snap.windows[0]) in e.seenAt;
  }
}
