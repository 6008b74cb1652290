/** What routing promises: stickiness over whole runs, an answer that depends
    on the set of candidates alone, and failovers that leave a refused seat. */
module Routing {
  import opened Basics
  import opened Windows
  import opened Pace
  import opened SessionTable
  import opened SessionOrder
  import opened Scheduler

  ghost predicate Handled(out: Outcome) { !out.decision.kind.Declined? }

  function KeyOf(req: Request): string { IndexKey(req.provider, req.model, req.key) }

  // ----- bindings a table holds

  ghost predicate Fit(t: Table) { Distinct(t.order) && (t.max > 0 ==> |t.order| <= t.max) }

  ghost predicate Binds(t: Table, key: string, a: string) {
    var at := Find(t.order, key);
    at.Some? && t.order[at.value].binding.authID == a
  }

  ghost predicate LiveOn(t: Table, key: string, a: string, now: int) {
    Binds(t, key, a) && !Expired(t.ttl, t.order[Find(t.order, key).value].binding, now)
  }

  // t' binds no key but `moved` to a credential t does not bind it to.
  ghost predicate Keeps(t: Table, t': Table, moved: Option<string>) {
    && Fit(t') && t'.ttl == t.ttl && t'.max == t.max
    && forall k, a :: moved != Some(k) && Binds(t', k, a) ==> Binds(t, k, a)
  }

  lemma BindsMap(t: Table, m: map<string, Binding>)
    requires Files(t.order, m)
    ensures forall k, a :: Binds(t, k, a) <==> k in m && m[k].authID == a
    ensures forall k, a, now :: LiveOn(t, k, a, now) <==> k in m && m[k].authID == a && !Expired(t.ttl, m[k], now)
  {
    forall k
      ensures (Find(t.order, k).Some? <==> k in m) && (k in m ==> m[k] == t.order[Find(t.order, k).value].binding)
    {
      FindFiled(t.order, m, k);
    }
  }

  // A lookup moves no binding, and hits exactly a live one.
  lemma LookupKeeps(t: Table, provider: string, model: string, s: string, now: int)
    requires Fit(t)
    ensures var (t', found), key := Lookup(t, provider, model, s, now), IndexKey(provider, model, s);
            && Keeps(t, t', None)
            && (forall a :: s != "" && LiveOn(t, key, a, now) ==> found.Some? && found.value.authID == a)
            && (found.Some? ==> LiveOn(t, key, found.value.authID, now) && LiveOn(t', key, found.value.authID, now))
            && (forall k, a :: LiveOn(t, k, a, now) ==> LiveOn(t', k, a, now))
  {
    hide Files, Find;
    var m, key := MapOf(t.order), IndexKey(provider, model, s);
    var (t', found) := Lookup(t, provider, model, s, now);
    MapFiles(t.order);
    LookupRefines(t, m, provider, model, s, now);
    LookupShrinks(t, provider, model, s, now);
    var m' := if found.Some? then m[key := found.value] else if s == "" then m else m - {key};
    BindsMap(t, m);
    BindsMap(t', m');
    FilesDistinct(t'.order, m');
  }

  lemma FilesDistinct(order: seq<Filed>, m: map<string, Binding>)
    requires Files(order, m)
    ensures Distinct(order)
  {
  }

  lemma LookupShrinks(t: Table, provider: string, model: string, s: string, now: int)
    ensures var t' := Lookup(t, provider, model, s, now).0;
            t'.ttl == t.ttl && t'.max == t.max && |t'.order| <= |t.order|
  {
  }

  // A bind moves its own key alone, and leaves it live.
  lemma BindKeeps(t: Table, provider: string, model: string, s: string, auth: string, now: int)
    requires Fit(t) && s != ""
    ensures var t', key := Bind(t, provider, model, s, auth, now).0, IndexKey(provider, model, s);
            Keeps(t, t', Some(key)) && LiveOn(t', key, auth, now)
  {
    hide Files, Find;
    var m, key := MapOf(t.order), IndexKey(provider, model, s);
    var (t', b) := Bind(t, provider, model, s, auth, now);
    MapFiles(t.order);
    BindRefines(t, m, provider, model, s, auth, now);
    BindShrinks(t, provider, model, s, auth, now);
    var evicts := 0 < t.max == |t.order| && key !in m;
    var m' := if evicts then m[key := b] - {Last(t.order).index} else m[key := b];
    BindsMap(t, m);
    BindsMap(t', m');
    FilesDistinct(t'.order, m');
    if evicts {
      LastFiled(t.order, m);
    }
  }

  lemma LastFiled(order: seq<Filed>, m: map<string, Binding>)
    requires Files(order, m) && order != []
    ensures Last(order).index in m
  {
  }

  lemma BindShrinks(t: Table, provider: string, model: string, s: string, auth: string, now: int)
    requires Fit(t)
    ensures var t' := Bind(t, provider, model, s, auth, now).0;
            t'.ttl == t.ttl && t'.max == t.max && (t.max > 0 ==> |t'.order| <= t.max)
  {
  }

  lemma KeepsOn(t: Table, t1: Table, t2: Table, moved: Option<string>)
    requires Keeps(t, t1, None) && Keeps(t1, t2, moved)
    ensures Keeps(t, t2, moved)
  {
  }

  // ----- one pick

  // The key a pick may move: its own, when the request binds.
  function Moved(cfg: Config, req: Request): Option<string> {
    if cfg.affinity && req.key != "" && !req.pinned then Some(KeyOf(req)) else None
  }

  lemma ColdKeeps(p: Pick, t: Table, previous: string)
    requires p.ids != [] && Fit(t)
    ensures var out := PickCold(p, t, previous);
            && Keeps(t, out.table, Moved(p.cfg, p.req))
            && (Handled(out) && Moved(p.cfg, p.req).Some? ==> LiveOn(out.table, KeyOf(p.req), out.decision.chosen, p.now))
  {
    hide Bind, Fit, LiveOn, Binds, Unexpired, Count;
    KeepsSame(t, Moved(p.cfg, p.req));
    if p.req.key != "" {
      forall a
        ensures Keeps(t, Bind(t, p.req.provider, p.req.model, p.req.key, a, p.now).0, Some(KeyOf(p.req)))
        ensures LiveOn(Bind(t, p.req.provider, p.req.model, p.req.key, a, p.now).0, KeyOf(p.req), a, p.now)
      {
        BindKeeps(t, p.req.provider, p.req.model, p.req.key, a, p.now);
      }
    }
  }

  lemma KeepsSame(t: Table, moved: Option<string>)
    requires Fit(t)
    ensures Keeps(t, t, moved)
  {
  }

  lemma ParentKeeps(p: Pick, t: Table)
    requires Fit(t) && p.req.key != "" && p.cfg.affinity
    ensures var (t', out) := PickByParent(p, t);
            && Keeps(t, t', Moved(p.cfg, p.req)) && (out.None? ==> Keeps(t, t', None))
            && (out.Some? ==> Handled(out.value) && out.value.table == t')
            && (out.Some? && !p.req.pinned ==> LiveOn(t', KeyOf(p.req), out.value.decision.chosen, p.now))
  {
    hide Bind, Lookup, Fit, LiveOn, Binds, Keeps, BlockedFor;
    KeepsSame(t, None);
    KeepsSame(t, Moved(p.cfg, p.req));
    var req := p.req;
    LookupKeeps(t, req.provider, req.model, req.parentKey, p.now);
    var (t1, parent) := Lookup(t, req.provider, req.model, req.parentKey, p.now);
    KeepsFit(t, t1, None);
    KeepsMore(t, t1, Moved(p.cfg, p.req));
    if parent.Some? {
      var a := parent.value.authID;
      BindKeeps(t1, req.provider, req.model, req.key, a, p.now);
      KeepsOn(t, t1, Bind(t1, req.provider, req.model, req.key, a, p.now).0, Some(KeyOf(req)));
    }
  }

  lemma KeepsFit(t: Table, t': Table, moved: Option<string>)
    requires Keeps(t, t', moved)
    ensures Fit(t')
  {
  }

  lemma KeepsMore(t: Table, t': Table, moved: Option<string>)
    requires Keeps(t, t', None)
    ensures Keeps(t, t', moved)
  {
  }

  // Affinity: the pick moves no key but its own, answers a live binding's
  // credential unless it is not offered or refused with somewhere better to
  // go, and leaves the key on what it answered.
  lemma AffinityKeeps(p: Pick, t: Table)
    requires p.ids != [] && Fit(t) && p.req.key != "" && p.cfg.affinity
    ensures var (t', out), key := PickByAffinity(p, t), KeyOf(p.req);
            && Keeps(t, t', Moved(p.cfg, p.req)) && (out.None? ==> Keeps(t, t', None))
            && (out.Some? ==> out.value.table == t')
            && (out.Some? && Handled(out.value) && !p.req.pinned ==> LiveOn(t', key, out.value.decision.chosen, p.now))
            && forall a :: LiveOn(t, key, a, p.now) && a in p.ids
                           && !(BlockedFor(p.snaps, a, p.req.model) && HasAlternative(p.ids, p.scores, a)) ==>
                 out.Some? && Handled(out.value) && out.value.decision.chosen == a && Keeps(t, t', None)
  {
    hide Bind, Lookup, Fit, LiveOn, Binds, Keeps, BlockedFor, HasAlternative, PickCold, PickByParent;
    var req := p.req;
    var (t1, bound) := Lookup(t, req.provider, req.model, req.key, p.now);
    LookupKeeps(t, req.provider, req.model, req.key, p.now);
    KeepsFit(t, t1, None);
    if bound.None? {
      ParentKeeps(p, t1);
      KeepsOn(t, t1, PickByParent(p, t1).0, Moved(p.cfg, req));
      if PickByParent(p, t1).1.None? {
        KeepsOn(t, t1, PickByParent(p, t1).0, None);
      }
    } else {
      var a := bound.value.authID;
      var t2 := TouchParent(p, t1);
      LookupKeeps(t1, req.provider, req.model, req.parentKey, p.now);
      KeepsSame(t1, None);
      KeepsOn(t, t1, t2, None);
      KeepsFit(t, t2, None);
      KeepsMore(t, t2, Moved(p.cfg, req));
      ColdKeeps(p, t2, a);
      KeepsOn(t, t2, PickCold(p, t2, a).table, Moved(p.cfg, req));
      LiveOnOne(t, KeyOf(req), p.now);
    }
  }

  lemma LiveOnOne(t: Table, key: string, now: int)
    ensures forall a, b :: LiveOn(t, key, a, now) && LiveOn(t, key, b, now) ==> a == b
  {
  }

  // A pick moves no binding but its own key's, and after a handled pick that
  // binds, the key is live on the credential answered.
  lemma RouteKeeps(cfg: Config, snaps: map<string, Snapshot>, t: Table, req: Request, now: int)
    requires Fit(t)
    ensures var out := Route(cfg, snaps, t, req, now);
            && Keeps(t, out.table, Moved(cfg, req))
            && (Handled(out) && Moved(cfg, req).Some? ==> LiveOn(out.table, KeyOf(req), out.decision.chosen, now))
  {
    hide Fit, LiveOn, Keeps, PickCold, PickByAffinity, Prepared;
    KeepsSame(t, Moved(cfg, req));
    var p := Prepared(cfg, snaps, req, now);
    PreparedFields(cfg, snaps, req, now);
    if Governed(cfg, snaps, req, now) {
      ColdKeeps(p, t, "");
      if cfg.affinity && req.key != "" {
        AffinityKeeps(p, t);
        var (t1, out) := PickByAffinity(p, t);
        if out.None? {
          KeepsFit(t, t1, None);
          ColdKeeps(p, t1, "");
          KeepsOn(t, t1, PickCold(p, t1, "").table, Moved(cfg, req));
        }
      }
    }
  }

  lemma PreparedFields(cfg: Config, snaps: map<string, Snapshot>, req: Request, now: int)
    ensures var p := Prepared(cfg, snaps, req, now);
            p.req == req && p.cfg == cfg && p.now == now && p.ids == Offered(req) && p.snaps == Readings(Offered(req), snaps)
  {
  }

  // The provider refuses the model on a, and another candidate can take it.
  ghost predicate Displaced(cfg: Config, snaps: map<string, Snapshot>, req: Request, now: int, a: string) {
    BlockedFor(snaps, a, req.model) && HasAlternative(Offered(req), Prepared(cfg, snaps, req, now).scores, a)
  }

  // A live binding on an offered credential is answered, whatever the scores,
  // and stays, unless the model is refused there and has a better home.
  lemma RouteSticks(cfg: Config, snaps: map<string, Snapshot>, t: Table, req: Request, now: int, a: string)
    requires Fit(t) && Governed(cfg, snaps, req, now) && cfg.affinity && req.key != ""
    requires LiveOn(t, KeyOf(req), a, now) && a in Offered(req) && !Displaced(cfg, snaps, req, now, a)
    ensures var out := Route(cfg, snaps, t, req, now);
            Handled(out) && out.decision.chosen == a && Keeps(t, out.table, None)
  {
    hide Fit, LiveOn, Keeps, PickCold, PickByAffinity, Prepared, HasAlternative;
    PreparedFields(cfg, snaps, req, now);
    AffinityKeeps(Prepared(cfg, snaps, req, now), t);
  }

  // ----- runs

  datatype Event =
    | EvPick(cfg: Config, snaps: map<string, Snapshot>, req: Request, now: int)
    | EvSweep(now: int)
    | EvDrop(authID: string)

  ghost function Happen(t: Table, e: Event): Table {
    match e
    case EvPick(cfg, snaps, req, now) => Route(cfg, snaps, t, req, now).table
    case EvSweep(now) => Sweep(t, now).0
    case EvDrop(a) => DropAuth(t, a).0
  }

  // The tables of a run of events, oldest first.
  ghost predicate Happens(ts: seq<Table>, es: seq<Event>) {
    && |ts| == |es| + 1 && Fit(ts[0])
    && forall i :: 0 <= i < |es| ==> ts[i + 1] == Happen(ts[i], es[i])
  }

  // The event is a pick for the conversation filed at key that may bind it.
  predicate Own(e: Event, key: string) { e.EvPick? && Moved(e.cfg, e.req) == Some(key) }

  // At every pick of its own that the plugin decides, the conversation's
  // binding is live and its credential is offered, and not refused for the
  // model with somewhere better to go.
  ghost predicate Welcome(ts: seq<Table>, es: seq<Event>, key: string, a: string) {
    |ts| == |es| + 1 &&
    forall i :: 0 <= i < |es| && Own(es[i], key) ==>
      var e := es[i];
      Governed(e.cfg, e.snaps, e.req, e.now) ==>
        && (Binds(ts[i], key, a) ==> LiveOn(ts[i], key, a, e.now))
        && a in Offered(e.req) && !Displaced(e.cfg, e.snaps, e.req, e.now, a)
  }

  lemma HappenKeeps(t: Table, e: Event)
    requires Fit(t)
    ensures Keeps(t, Happen(t, e), if e.EvPick? then Moved(e.cfg, e.req) else None)
  {
    hide Fit, Keeps, Route, SweepFrom, KeepOthers;
    match e
    case EvPick(cfg, snaps, req, now) => RouteKeeps(cfg, snaps, t, req, now);
    case EvSweep(now) =>
      KeepsSame(t, None);
      var idx := SweepPicks(t.order, t.ttl, now);
      if t.ttl > 0 { KeepsPicked(t, Sweep(t, now).0, idx); }
    case EvDrop(a) =>
      var idx := KeepPicks(t.order, a);
      KeepsPicked(t, DropAuth(t, a).0, idx);
  }

  lemma KeepsPicked(t: Table, t': Table, idx: seq<nat>)
    requires Fit(t) && Picks(idx, t'.order, t.order) && t'.ttl == t.ttl && t'.max == t.max
    ensures Keeps(t, t', None)
  {
    if t'.order != [] {
      PicksAhead(idx, |idx| - 1);
    }
    forall k, a | Binds(t', k, a)
      ensures Binds(t, k, a)
    {
      var i := Find(t'.order, k).value;
      assert t.order[idx[i]].index == k;
    }
  }

  // Stickiness over whole runs: as long as the conversation stays bound, it
  // stays bound where it was, and every pick of its own that the plugin
  // decides answers there, whatever other conversations, pinned requests,
  // declined picks, sweeps and drops do.
  lemma {:induction false} RunSticks(ts: seq<Table>, es: seq<Event>, key: string, a: string, n: nat)
    requires Happens(ts, es) && Welcome(ts, es, key, a) && n <= |es|
    requires Binds(ts[0], key, a) && forall i :: 0 <= i <= n ==> Find(ts[i].order, key).Some?
    ensures Fit(ts[n]) && Binds(ts[n], key, a)
    ensures n < |es| && Own(es[n], key) && Governed(es[n].cfg, es[n].snaps, es[n].req, es[n].now) ==>
              var e := es[n];
              var out := Route(e.cfg, e.snaps, ts[n], e.req, e.now);
              Handled(out) && out.decision.chosen == a
  {
    hide Route, Governed, Displaced, Fit, Keeps;
    if n > 0 {
      RunSticks(ts, es, key, a, n - 1);
      var t, e := ts[n - 1], es[n - 1];
      HappenKeeps(t, e);
      KeepsFit(t, ts[n], if e.EvPick? then Moved(e.cfg, e.req) else None);
      if Own(e, key) {
        if Governed(e.cfg, e.snaps, e.req, e.now) {
          RouteSticks(e.cfg, e.snaps, t, e.req, e.now, a);
        } else {
          DeclinedKeeps(e.cfg, e.snaps, t, e.req, e.now);
        }
        StaysBound(t, ts[n], None, key, a);
      } else {
        StaysBound(t, ts[n], if e.EvPick? then Moved(e.cfg, e.req) else None, key, a);
      }
    }
    if n < |es| && Own(es[n], key) && Governed(es[n].cfg, es[n].snaps, es[n].req, es[n].now) {
      RouteSticks(es[n].cfg, es[n].snaps, ts[n], es[n].req, es[n].now, a);
    }
  }

  // A pick the plugin does not decide leaves the table.
  lemma DeclinedKeeps(cfg: Config, snaps: map<string, Snapshot>, t: Table, req: Request, now: int)
    requires Fit(t) && !Governed(cfg, snaps, req, now)
    ensures var out := Route(cfg, snaps, t, req, now); out.table == t && !Handled(out) && out.decision.chosen == ""
    ensures Keeps(t, t, None)
  {
    hide Fit, Keeps, Governed, PickCold, PickByAffinity, Prepared;
    KeepsSame(t, None);
  }

  lemma StaysBound(t: Table, t': Table, moved: Option<string>, key: string, a: string)
    requires Keeps(t, t', moved) && moved != Some(key) && Binds(t, key, a) && Find(t'.order, key).Some?
    ensures Binds(t', key, a)
  {
    var b := t'.order[Find(t'.order, key).value].binding.authID;
    assert Binds(t', key, b);
  }

  // ----- the answer reads the candidates as a set

  // A handled pick answers an offered candidate, never the one that just
  // failed.
  lemma RouteAnswersOffered(cfg: Config, snaps: map<string, Snapshot>, t: Table, req: Request, now: int)
    requires Handled(Route(cfg, snaps, t, req, now))
    ensures var chosen := Route(cfg, snaps, t, req, now).decision.chosen;
            chosen in Offered(req) && chosen != "" && chosen != req.retryOf
  {
    hide PickByAffinity, PickCold, Ranking, OfferedFrom;
    var p := Prepared(cfg, snaps, req, now);
    HeadOfRanking(Gated(cfg.pool, p.snaps, req.model, now), p.ids);
    if Governed(cfg, snaps, req, now) {
      AffinityAnswersOffered(p, t);
      var t1 := PickByAffinity(p, t).0;
      if cfg.affinity && req.key != "" {
        if PickByAffinity(p, t).1.None? { ColdAnswersOffered(p, t1, ""); }
      } else {
        ColdAnswersOffered(p, t, "");
      }
    }
  }

  lemma AffinityAnswersOffered(p: Pick, t: Table)
    requires p.ids != []
    requires Head(p.scores).Some? ==> Head(p.scores).value.authID in p.ids
    ensures var out := PickByAffinity(p, t).1; out.Some? && Handled(out.value) ==> out.value.decision.chosen in p.ids
  {
    hide PickCold, Lookup, Bind, BlockedFor, HasAlternative;
    var (t1, bound) := Lookup(t, p.req.provider, p.req.model, p.req.key, p.now);
    if bound.Some? {
      var a, t2 := bound.value.authID, TouchParent(p, t1);
      if Handled(PickCold(p, t2, a)) { ColdAnswersOffered(p, t2, a); }
    }
  }

  lemma ColdAnswersOffered(p: Pick, t: Table, previous: string)
    requires p.ids != [] && Handled(PickCold(p, t, previous))
    requires Head(p.scores).Some? ==> Head(p.scores).value.authID in p.ids
    ensures PickCold(p, t, previous).decision.chosen in p.ids
  {
    hide Bind, LeastBound, Unexpired, Count;
    LeastBoundIsLeast(p.scores, LiveCounts(t, p.now), p.ids);
  }

  lemma ColdOfSet(p: Pick, q: Pick, t: Table, previous: string)
    requires p.ids != [] && q.ids != [] && p.req.key == q.req.key && p.cfg == q.cfg && p.now == q.now && p.scores == q.scores
    requires q.req == p.req.(candidates := q.req.candidates) && forall id :: id in p.ids <==> id in q.ids
    ensures PickCold(p, t, previous) == PickCold(q, t, previous)
  {
    LeastBoundOfSet(p.scores, LiveCounts(t, p.now), p.ids, q.ids);
  }

  ghost predicate SameSet(p: Pick, q: Pick) {
    && p.ids != [] && q.ids != [] && (forall id :: id in p.ids <==> id in q.ids)
    && q == p.(req := p.req.(candidates := q.req.candidates), ids := q.ids)
  }

  lemma AffinityOfSet(p: Pick, q: Pick, t: Table)
    requires SameSet(p, q)
    ensures PickByAffinity(p, t) == PickByAffinity(q, t)
  {
    hide Bind, Lookup, BlockedFor, PickCold, Refused;
    var (t1, bound) := Lookup(t, p.req.provider, p.req.model, p.req.key, p.now);
    if bound.Some? {
      var a, t2 := bound.value.authID, TouchParent(p, t1);
      ColdOfSet(p, q, t2, a);
      assert HasAlternative(p.ids, p.scores, a) == HasAlternative(q.ids, q.scores, a);
    }
  }

  // Any reordering or repetition of the candidates leaves the whole outcome as
  // it was: the answer, the decision recorded and the table.
  lemma RouteOfSet(cfg: Config, snaps: map<string, Snapshot>, t: Table, req: Request, candidates: seq<Candidate>, now: int)
    requires forall id :: id in Offered(req) <==> id in Offered(req.(candidates := candidates))
    ensures Route(cfg, snaps, t, req, now) == Route(cfg, snaps, t, req.(candidates := candidates), now)
  {
    hide Ranking, PickCold, PickByAffinity, OfferedFrom;
    var req' := req.(candidates := candidates);
    var p, q := Prepared(cfg, snaps, req, now), Prepared(cfg, snaps, req', now);
    SameEmpty(p.ids, q.ids);
    assert p.snaps == q.snaps;
    RankingOfSet(Gated(cfg.pool, p.snaps, req.model, now), p.ids, q.ids);
    if p.ids != [] {
      assert SameSet(p, q);
      AffinityOfSet(p, q, t);
      ColdOfSet(p, q, t, "");
      ColdOfSet(p, q, PickByAffinity(p, t).0, "");
    }
  }

  lemma SameEmpty(a: seq<string>, b: seq<string>)
    requires forall id :: id in a <==> id in b
    ensures a == [] <==> b == []
  {
    if a != [] { assert a[0] in b; }
    if b != [] { assert b[0] in a; }
  }

  // ----- failover

  lemma ScoresGated(cfg: Config, snaps: map<string, Snapshot>, req: Request, now: int, id: string)
    requires id in Offered(req)
    ensures ScoreIn(Prepared(cfg, snaps, req, now).scores, id) == GatedScore(cfg.pool, snaps, req.model, now, id)
  {
    hide Ranking, ScoreOf;
    var readings := Readings(Offered(req), snaps);
    ScoreInRanking(Gated(cfg.pool, readings, req.model, now), Offered(req), id);
    assert id in snaps <==> id in readings;
  }

  // A refused reading scores as refused while it is fresh, and as stale after.
  lemma BlockedScores(cfg: Config, snaps: map<string, Snapshot>, req: Request, now: int, id: string)
    requires BlockedFor(snaps, id, req.model)
    ensures GatedScore(cfg.pool, snaps, req.model, now, id).reason ==
            if Stale(snaps[id], now, cfg.pool.maxStaleness) then StaleReading else Rejected
    ensures !GatedScore(cfg.pool, snaps, req.model, now, id).eligible
  {
    var ws, family := snaps[id].windows, FamilyOf(req.model);
    var i :| 0 <= i < |ws| && BearsOn(ws[i], family) && Blocking(ws[i]);
    assert BearsOn(ws[i], family) && Known(ws[i]);
    assert SomeBearing(ws, family, Known);
  }

  // The table a failover picks over: the conversation's own lookup and, for a
  // subagent, its parent's.
  function Touched(cfg: Config, snaps: map<string, Snapshot>, t: Table, req: Request, now: int): Table {
    var t1 := Lookup(t, req.provider, req.model, req.key, now).0;
    if cfg.subagents && req.subagent && req.parentKey != "" then Lookup(t1, req.provider, req.model, req.parentKey, now).0 else t1
  }

  // Where a live conversation on a refused seat goes, when another candidate
  // can take the model: to one that can. It leaves the seat exactly when the
  // seat's reading is fresh, some candidate is eligible, or one that can take
  // the model is preferred to the seat as the least bound.
  lemma FailoverLeaves(cfg: Config, snaps: map<string, Snapshot>, t: Table, req: Request, now: int, a: string)
    requires Fit(t) && Governed(cfg, snaps, req, now) && cfg.affinity && req.key != ""
    requires LiveOn(t, KeyOf(req), a, now) && a in Offered(req) && BlockedFor(snaps, a, req.model)
    requires HasAlternative(Offered(req), Prepared(cfg, snaps, req, now).scores, a)
    ensures var scores := Prepared(cfg, snaps, req, now).scores;
            var chosen := Route(cfg, snaps, t, req, now).decision.chosen;
            && Handled(Route(cfg, snaps, t, req, now)) && chosen in Offered(req) && !Refused(scores, chosen)
            && (chosen != a <==>
                  || !Stale(snaps[a], now, cfg.pool.maxStaleness)
                  || Head(scores).Some?
                  || exists c :: c in Offered(req) && Prefer(scores, LiveCounts(Touched(cfg, snaps, t, req, now), now), c, a))
  {
    hide Route, PickCold, Ranking, HasAlternative, BlockedFor, LiveOn, Fit, Stale, ScoreOf, OfferedFrom;
    var p, t2 := Prepared(cfg, snaps, req, now), Touched(cfg, snaps, t, req, now);
    FailoverIsCold(cfg, snaps, t, req, now, a);
    ScoresGated(cfg, snaps, req, now, a);
    BlockedScores(cfg, snaps, req, now, a);
    HeadOfRanking(Gated(cfg.pool, p.snaps, req.model, now), p.ids);
    if Head(p.scores).Some? {
      ScoresGated(cfg, snaps, req, now, Head(p.scores).value.authID);
      EligibleReason(cfg, snaps, req, now, Head(p.scores).value.authID);
    }
    ColdLeaves(p, t2, a);
  }

  lemma FailoverIsCold(cfg: Config, snaps: map<string, Snapshot>, t: Table, req: Request, now: int, a: string)
    requires Fit(t) && Governed(cfg, snaps, req, now) && cfg.affinity && req.key != ""
    requires LiveOn(t, KeyOf(req), a, now) && a in Offered(req) && BlockedFor(snaps, a, req.model)
    requires HasAlternative(Offered(req), Prepared(cfg, snaps, req, now).scores, a)
    ensures Route(cfg, snaps, t, req, now) == PickCold(Prepared(cfg, snaps, req, now), Touched(cfg, snaps, t, req, now), a)
  {
    hide LiveOn, Ranking, Fit, Keeps, Lookup, BlockedFor, HasAlternative, PickCold, OfferedFrom;
    LookupKeeps(t, req.provider, req.model, req.key, now);
    BlockedReading(snaps, Offered(req), a, req.model);
  }

  // A cold pick away from an ineligible seat when another candidate can take
  // the model.
  lemma ColdLeaves(p: Pick, t: Table, a: string)
    requires p.ids != [] && a in p.ids && p.req.key != "" && HasAlternative(p.ids, p.scores, a)
    requires Head(p.scores).Some? ==>
               var best := Head(p.scores).value.authID; best in p.ids && best != a && !Refused(p.scores, best)
    ensures var out := PickCold(p, t, a);
            && Handled(out) && out.decision.chosen in p.ids && !Refused(p.scores, out.decision.chosen)
            && (out.decision.chosen != a <==>
                  Head(p.scores).Some? || exists c :: c in p.ids && Prefer(p.scores, LiveCounts(t, p.now), c, a))
    ensures Refused(p.scores, a) ==> PickCold(p, t, a).decision.chosen != a
  {
    hide Refused, Prefer, Bind, LeastBound, Unexpired, Count;
    var counts := LiveCounts(t, p.now);
    var least := LeastBound(p.scores, counts, p.ids);
    LeastBoundIsLeast(p.scores, counts, p.ids);
    LeastNotRefused(p.scores, counts, p.ids, least, a);
    PreferredIff(p.scores, counts, p.ids, least, a);
  }

  lemma BlockedReading(snaps: map<string, Snapshot>, ids: seq<string>, id: string, model: string)
    requires BlockedFor(snaps, id, model) && id in ids
    ensures BlockedFor(Readings(ids, snaps), id, model)
  {
  }

  lemma LeastNotRefused(scores: seq<Score>, counts: string -> int, ids: seq<string>, least: string, a: string)
    requires least in ids && forall id :: id in ids && id != least ==> Prefer(scores, counts, least, id)
    requires HasAlternative(ids, scores, a)
    ensures !Refused(scores, least)
  {
  }

  lemma PreferredIff(scores: seq<Score>, counts: string -> int, ids: seq<string>, least: string, a: string)
    requires a in ids && least in ids && forall id :: id in ids && id != least ==> Prefer(scores, counts, least, id)
    ensures least != a <==> exists c :: c in ids && Prefer(scores, counts, c, a)
  {
    hide Prefer;
    if c :| c in ids && Prefer(scores, counts, c, a) {
      PreferTotal(scores, counts, c, a);
      PreferTotal(scores, counts, a, a);
    }
  }

  lemma EligibleReason(cfg: Config, snaps: map<string, Snapshot>, req: Request, now: int, id: string)
    ensures var s := GatedScore(cfg.pool, snaps, req.model, now, id);
            s.eligible ==> s.reason.Eligible?
  {
  }

  // Two conversations on two seats under the default limits, and the first
  // one's next request.
  const TTL := HOUR
  const MAX_SESSIONS := 65536
  const MAX_STALENESS := 15 * MINUTE
  const NOW := 2 * HOUR
  const BOUND := 90 * MINUTE
  const TWO_SEATS := Table(TTL, MAX_SESSIONS, [File(Binding("k", "p", "m", "a", BOUND, BOUND, 0)), File(Binding("l", "p", "m", "b", BOUND, BOUND, 0))])
  const NEXT := Request("p", true, "m", "k", false, "", "", false, [Candidate("a", "p"), Candidate("b", "p")])

  function RefusedSeat(observedAt: int): Snapshot {
    Snapshot("a", "", "", [Window(Session, "", Fin(1.0), None, 0, REJECTED, "", false, false)], Some(observedAt), ResponseHeaders, "", "")
  }

  lemma TwoOffered()
    ensures Offered(NEXT) == ["a", "b"]
  {
    assert OfferedFrom(NEXT, 0) == [] && OfferedFrom(NEXT, 1) == ["a"] && OfferedFrom(NEXT, 2) == ["a", "b"];
  }

  lemma TwoBound()
    ensures Fit(TWO_SEATS) && LiveOn(TWO_SEATS, KeyOf(NEXT), "a", NOW)
  {
    assert IndexKey("p", "m", "k") == "p|m|k" && IndexKey("p", "m", "l") == "p|m|l";
  }

  // A lookup of one conversation leaves one on each seat.
  lemma OneEach()
    ensures var t' := Lookup(TWO_SEATS, "p", "m", "k", NOW).0;
            LiveCounts(t', NOW)("a") == 1 && LiveCounts(t', NOW)("b") == 1
  {
    var k, l := Binding("k", "p", "m", "a", BOUND, BOUND, 0), Binding("l", "p", "m", "b", BOUND, BOUND, 0);
    assert Without(TWO_SEATS.order, 0) == [File(l)];
    var e := Filed(File(k).index, k.(lastSeen := NOW, hits := 1));
    assert Find(TWO_SEATS.order, IndexKey("p", "m", "k")) == Some(0);
    assert Lookup(TWO_SEATS, "p", "m", "k", NOW).0.order == [e] + [File(l)];
    var order := [e] + [File(l)];
    assert Unexpired(order, TTL, NOW) == order;
    CountOne(File(l));
    assert order[1..] == [File(l)];
    assert Count(order, "a") == 1 + Count([File(l)], "a") && Count(order, "b") == Count([File(l)], "b");
  }

  lemma CountOne(e: Filed)
    ensures forall a :: Count([e], a) == if e.binding.authID == a then 1 else 0
  {
    assert [e][1..] == [];
  }

  lemma SeatRefused(snaps: map<string, Snapshot>)
    requires snaps == map["a" := RefusedSeat(0)]
    ensures BlockedFor(snaps, "a", "m")
  {
    hide FamilyOf;
    assert BearsOn(snaps["a"].windows[0], FamilyOf("m")) && Blocking(snaps["a"].windows[0]);
  }

  // Freshness is needed: a seat whose refusal is on record but whose reading is
  // stale is chosen again when no other candidate has fewer conversations.
  lemma StaleSeatChosenAgain(curve: PaceConfig)
    ensures var cfg, snaps := Config(true, true, false, PoolConfig(curve, MAX_STALENESS)), map["a" := RefusedSeat(0)];
            && BlockedFor(snaps, "a", "m") && HasAlternative(Offered(NEXT), Prepared(cfg, snaps, NEXT, NOW).scores, "a")
            && Route(cfg, snaps, TWO_SEATS, NEXT, NOW).decision.chosen == "a"
  {
    hide Route, Ranking, FamilyOf, ScoreOf, Lookup, LiveCounts, Offered, BlockedFor, LiveOn, Fit;
    var cfg, snaps := Config(true, true, false, PoolConfig(curve, MAX_STALENESS)), map["a" := RefusedSeat(0)];
    TwoOffered();
    TwoBound();
    SeatRefused(snaps);
    var scores := Prepared(cfg, snaps, NEXT, NOW).scores;
    ScoresGated(cfg, snaps, NEXT, NOW, "a");
    ScoresGated(cfg, snaps, NEXT, NOW, "b");
    assert !Refused(scores, "a") && !Refused(scores, "b");
    assert HasAlternative(Offered(NEXT), scores, "a") by {
      assert "b" in Offered(NEXT);
    }
    FailoverLeaves(cfg, snaps, TWO_SEATS, NEXT, NOW, "a");
    HeadOfRanking(Gated(cfg.pool, Readings(Offered(NEXT), snaps), "m", NOW), Offered(NEXT));
    assert Head(scores).None?;
    OneEach();
    assert Touched(cfg, snaps, TWO_SEATS, NEXT, NOW) == Lookup(TWO_SEATS, "p", "m", "k", NOW).0;
    assert !IdLess("b", "a") && !IdLess("a", "a");
  }

  // ----- where a pick goes

  ghost predicate Touches(t: Table, key: string, now: int) {
    var at := Find(t.order, key);
    at.Some? && t.order[at.value].binding.lastSeen == now
  }

  // A lookup refreshes the binding it finds, and leaves the others.
  lemma LookupTouches(t: Table, provider: string, model: string, s: string, now: int)
    requires Fit(t)
    ensures var t', key := Lookup(t, provider, model, s, now).0, IndexKey(provider, model, s);
            && (Lookup(t, provider, model, s, now).1.Some? ==> Touches(t', key, now))
            && (Lookup(t, provider, model, s, now).1.None? ==> forall k, a :: LiveOn(t', k, a, now) ==> LiveOn(t, k, a, now))
            && (forall k, a :: Touches(t, k, now) && LiveOn(t, k, a, now) ==> Touches(t', k, now))
  {
    hide Files, Find;
    var m, key := MapOf(t.order), IndexKey(provider, model, s);
    var (t', found) := Lookup(t, provider, model, s, now);
    MapFiles(t.order);
    LookupRefines(t, m, provider, model, s, now);
    LookupShrinks(t, provider, model, s, now);
    var m' := if found.Some? then m[key := found.value] else if s == "" then m else m - {key};
    BindsMap(t, m);
    BindsMap(t', m');
    TouchesMap(t, m, now);
    TouchesMap(t', m', now);
  }

  lemma TouchesMap(t: Table, m: map<string, Binding>, now: int)
    requires Files(t.order, m)
    ensures forall k :: Touches(t, k, now) <==> k in m && m[k].lastSeen == now
  {
    forall k
      ensures (Find(t.order, k).Some? <==> k in m) && (k in m ==> m[k] == t.order[Find(t.order, k).value].binding)
    {
      FindFiled(t.order, m, k);
    }
  }

  function ParentKeyOf(req: Request): string { IndexKey(req.provider, req.model, req.parentKey) }

  predicate AsksParent(cfg: Config, req: Request) { cfg.subagents && req.subagent && req.parentKey != "" }

  // What is recorded of a pick that chose.
  function Chose(req: Request, now: int, kind: DecisionKind, chosen: string, previous: string): Decision {
    Decision(now, req.key, req.model, req.provider, chosen, previous, kind, req.subagent)
  }

  // A kept binding is recorded as such and refreshed, and for a subagent its
  // parent's live binding with it.
  lemma StickTouches(cfg: Config, snaps: map<string, Snapshot>, t: Table, req: Request, now: int, a: string)
    requires Fit(t) && Governed(cfg, snaps, req, now) && cfg.affinity && req.key != ""
    requires LiveOn(t, KeyOf(req), a, now) && a in Offered(req) && !Displaced(cfg, snaps, req, now, a)
    ensures var out := Route(cfg, snaps, t, req, now);
            && out.decision == Chose(req, now, AffinityHit, a, "") && Touches(out.table, KeyOf(req), now)
            && (AsksParent(cfg, req) && (exists b :: LiveOn(t, ParentKeyOf(req), b, now)) ==> Touches(out.table, ParentKeyOf(req), now))
  {
    hide Fit, LiveOn, Keeps, PickCold, BlockedFor, HasAlternative, Lookup, OfferedFrom, Touches, Ranking;
    var t1 := Lookup(t, req.provider, req.model, req.key, now).0;
    LookupKeeps(t, req.provider, req.model, req.key, now);
    LookupTouches(t, req.provider, req.model, req.key, now);
    KeepsFit(t, t1, None);
    LookupKeeps(t1, req.provider, req.model, req.parentKey, now);
    LookupTouches(t1, req.provider, req.model, req.parentKey, now);
    assert KeyOf(req) == IndexKey(req.provider, req.model, req.key);
    BlockedInReadings(snaps, Offered(req), a, req.model);
  }

  lemma BlockedInReadings(snaps: map<string, Snapshot>, ids: seq<string>, id: string, model: string)
    requires id in ids
    ensures BlockedFor(Readings(ids, snaps), id, model) == BlockedFor(snaps, id, model)
  {
  }

  // No binding of the conversation's own is live.
  ghost predicate Unbound(cfg: Config, t: Table, req: Request, now: int) {
    !cfg.affinity || req.key == "" || forall a :: !LiveOn(t, KeyOf(req), a, now)
  }

  // The request is a subagent's whose parent is live on a, and a is offered
  // and not refused for the model.
  ghost predicate ParentHome(cfg: Config, snaps: map<string, Snapshot>, t: Table, req: Request, now: int, a: string) {
    && cfg.affinity && req.key != "" && AsksParent(cfg, req)
    && LiveOn(t, ParentKeyOf(req), a, now) && a in Offered(req) && !BlockedFor(snaps, a, req.model)
  }

  lemma UnboundMisses(t: Table, req: Request, now: int)
    requires Fit(t) && forall a :: !LiveOn(t, KeyOf(req), a, now)
    ensures Lookup(t, req.provider, req.model, req.key, now).1.None?
  {
    hide Fit, LiveOn, Lookup, Keeps;
    assert KeyOf(req) == IndexKey(req.provider, req.model, req.key);
    LookupKeeps(t, req.provider, req.model, req.key, now);
  }

  // A child with no live binding of its own is answered with its parent's
  // live credential when that is offered and not refused, and unless the
  // request is pinned is bound there.
  lemma ChildFollowsParent(cfg: Config, snaps: map<string, Snapshot>, t: Table, req: Request, now: int, a: string)
    requires Fit(t) && Governed(cfg, snaps, req, now) && Unbound(cfg, t, req, now) && ParentHome(cfg, snaps, t, req, now, a)
    ensures var out := Route(cfg, snaps, t, req, now);
            && out.decision == Chose(req, now, AffinityHit, a, "")
            && (!req.pinned ==> LiveOn(out.table, KeyOf(req), a, now))
  {
    hide LiveOn, Ranking, Fit, Keeps, Lookup, Bind, BlockedFor, PickCold, OfferedFrom;
    var t1 := Lookup(t, req.provider, req.model, req.key, now).0;
    UnboundMisses(t, req, now);
    LookupKeeps(t, req.provider, req.model, req.key, now);
    KeepsFit(t, t1, None);
    LookupKeeps(t1, req.provider, req.model, req.parentKey, now);
    var t2 := Lookup(t1, req.provider, req.model, req.parentKey, now).0;
    KeepsFit(t1, t2, None);
    BlockedInReadings(snaps, Offered(req), a, req.model);
    BindKeeps(t2, req.provider, req.model, req.key, a, now);
  }

  predicate Gone(s: Score) { s.reason.Rejected? || s.reason.Spent? }

  // chosen is the home a cold pick owes: an eligible candidate that no
  // eligible one undercuts, the lowest id of those level; when none is
  // eligible, one neither refused nor full if there is such, the fewest
  // conversations first, then the lowest id.
  ghost predicate BestHome(score: string -> Score, counts: string -> int, ids: seq<string>, chosen: string) {
    && chosen in ids
    && ((exists id :: id in ids && score(id).eligible) ==> score(chosen).eligible)
    && (forall id :: id in ids && score(id).eligible ==>
          && !Undercuts(score(id), score(chosen))
          && (Undercuts(score(chosen), score(id)) || id == chosen || IdLess(chosen, id)))
    && ((forall id :: id in ids ==> !score(id).eligible) ==> forall id :: id in ids && id != chosen ==>
          || (!Gone(score(chosen)) && Gone(score(id)))
          || (Gone(score(chosen)) == Gone(score(id)) && counts(chosen) < counts(id))
          || (Gone(score(chosen)) == Gone(score(id)) && counts(chosen) == counts(id) && IdLess(chosen, id)))
  }

  lemma ColdChooses(p: Pick, t: Table, previous: string, score: string -> Score)
    requires p.ids != [] && NamesItsOwn(score) && p.scores == Ranking(score, p.ids)
    requires p.req.key != "" || exists id :: id in p.ids && score(id).eligible
    ensures var out, moves := PickCold(p, t, previous), previous != "" && !p.req.pinned;
            && BestHome(score, LiveCounts(t, p.now), p.ids, out.decision.chosen)
            && out.decision == Chose(p.req, p.now, if moves then Failover else ColdPick, out.decision.chosen, if moves then previous else "")
  {
    hide Ranking, Bind, LeastBound, Undercuts, IdLess, Unexpired, Count;
    HeadOfRanking(score, p.ids);
    forall id | id in p.ids
      ensures ScoreIn(p.scores, id) == score(id)
      ensures score(id).eligible ==>
                var best := Head(p.scores);
                && best.Some? && best.value.authID in p.ids && best.value == score(best.value.authID) && !Undercuts(score(id), best.value)
                && (Undercuts(best.value, score(id)) || id == best.value.authID || IdLess(best.value.authID, id))
    {
      ScoreInRanking(score, p.ids, id);
      if score(id).eligible { HeadUndercut(score, p.ids, id); }
    }
    LeastBoundIsLeast(p.scores, LiveCounts(t, p.now), p.ids);
  }

  lemma SameHome(f: string -> Score, g: string -> Score, counts: string -> int, ids: seq<string>, chosen: string)
    requires BestHome(f, counts, ids, chosen) && forall id :: id in ids ==> f(id) == g(id)
    ensures BestHome(g, counts, ids, chosen)
  {
    hide Undercuts, IdLess, Gone;
  }

  // The table a pick's conversations are counted in.
  function Counted(cfg: Config, snaps: map<string, Snapshot>, t: Table, req: Request, now: int): Table {
    if cfg.affinity && req.key != "" then Touched(cfg, snaps, t, req, now) else t
  }

  // In an order in step, the count the fallback weighs is that of the
  // credential's unexpired bindings.
  lemma CountsAreLive(t: Table, now: int, a: string)
    requires InStep(t.order, 0)
    ensures LiveCounts(t, now)(a) == |PlacesOf(t.order, t.ttl, now, a)|
  {
    CountAgrees(t.order, t.ttl, now, a);
    LiveCounted(t.order, t.ttl, now, a);
  }

  // The credential a live conversation is moved off: one not offered, or
  // refused while another candidate can take the model.
  ghost predicate Leaves(cfg: Config, snaps: map<string, Snapshot>, t: Table, req: Request, now: int, a: string) {
    && cfg.affinity && req.key != "" && LiveOn(t, KeyOf(req), a, now)
    && (a !in Offered(req) || Displaced(cfg, snaps, req, now, a))
  }

  lemma LeavesIsCold(cfg: Config, snaps: map<string, Snapshot>, t: Table, req: Request, now: int, a: string)
    requires Fit(t) && Governed(cfg, snaps, req, now) && Leaves(cfg, snaps, t, req, now, a)
    ensures Route(cfg, snaps, t, req, now) == PickCold(Prepared(cfg, snaps, req, now), Counted(cfg, snaps, t, req, now), a)
  {
    hide LiveOn, Ranking, Fit, Keeps, Lookup, BlockedFor, HasAlternative, PickCold, OfferedFrom;
    LookupKeeps(t, req.provider, req.model, req.key, now);
    assert KeyOf(req) == IndexKey(req.provider, req.model, req.key);
    if a in Offered(req) {
      BlockedInReadings(snaps, Offered(req), a, req.model);
    }
  }

  lemma UnboundIsCold(cfg: Config, snaps: map<string, Snapshot>, t: Table, req: Request, now: int)
    requires Fit(t) && Governed(cfg, snaps, req, now) && Unbound(cfg, t, req, now)
    requires forall a :: !ParentHome(cfg, snaps, t, req, now, a)
    ensures Route(cfg, snaps, t, req, now) == PickCold(Prepared(cfg, snaps, req, now), Counted(cfg, snaps, t, req, now), "")
  {
    hide LiveOn, Ranking, Fit, Keeps, Lookup, BlockedFor, HasAlternative, PickCold, OfferedFrom;
    if cfg.affinity && req.key != "" {
      var t1 := Lookup(t, req.provider, req.model, req.key, now).0;
      UnboundMisses(t, req, now);
      LookupKeeps(t, req.provider, req.model, req.key, now);
      LookupTouches(t, req.provider, req.model, req.key, now);
      KeepsFit(t, t1, None);
      LookupKeeps(t1, req.provider, req.model, req.parentKey, now);
      var parent := Lookup(t1, req.provider, req.model, req.parentKey, now).1;
      if AsksParent(cfg, req) && parent.Some? && parent.value.authID in Offered(req) {
        assert !ParentHome(cfg, snaps, t, req, now, parent.value.authID);
        BlockedInReadings(snaps, Offered(req), parent.value.authID, req.model);
      }
    }
  }

  // A pick with no home to keep, that of a conversation moved off its
  // credential or of one with none, goes to the best home there is.
  lemma RouteChooses(cfg: Config, snaps: map<string, Snapshot>, t: Table, req: Request, now: int, from: Option<string>)
    requires Fit(t) && Governed(cfg, snaps, req, now)
    requires match from case Some(a) => Leaves(cfg, snaps, t, req, now, a)
                        case None => Unbound(cfg, t, req, now) && forall a :: !ParentHome(cfg, snaps, t, req, now, a)
    requires req.key != "" || exists id :: id in Offered(req) && GatedScore(cfg.pool, snaps, req.model, now, id).eligible
    ensures var d, moves := Route(cfg, snaps, t, req, now).decision, from.Some? && from.value != "" && !req.pinned;
            && BestHome(Gated(cfg.pool, snaps, req.model, now), LiveCounts(Counted(cfg, snaps, t, req, now), now), Offered(req), d.chosen)
            && d == Chose(req, now, if moves then Failover else ColdPick, d.chosen, if moves then from.value else "")
  {
    hide Route, PickCold, Ranking, LiveOn, Fit, Leaves, Unbound, ParentHome, BestHome, ScoreOf, OfferedFrom, Counted, Stale, LiveCounts;
    var p, f, g := Prepared(cfg, snaps, req, now), Gated(cfg.pool, Readings(Offered(req), snaps), req.model, now), Gated(cfg.pool, snaps, req.model, now);
    var t2 := Counted(cfg, snaps, t, req, now);
    forall id | id in Offered(req)
      ensures f(id) == g(id)
    {
      assert id in snaps <==> id in Readings(Offered(req), snaps);
    }
    var previous := if from.Some? then from.value else "";
    if from.Some? {
      LeavesIsCold(cfg, snaps, t, req, now, from.value);
    } else {
      UnboundIsCold(cfg, snaps, t, req, now);
    }
    ColdChooses(p, t2, previous, f);
    SameHome(f, g, LiveCounts(t2, now), Offered(req), PickCold(p, t2, previous).decision.chosen);
  }

  // A pick without a conversation declines when nothing is eligible.
  lemma NoneToChoose(cfg: Config, snaps: map<string, Snapshot>, t: Table, req: Request, now: int)
    requires Governed(cfg, snaps, req, now) && req.key == ""
    requires forall id :: id in Offered(req) ==> !GatedScore(cfg.pool, snaps, req.model, now, id).eligible
    ensures Route(cfg, snaps, t, req, now) == Outcome(t, Chose(req, now, Declined, "", ""))
  {
    hide Ranking, ScoreOf, OfferedFrom, Stale;
    HeadOfRanking(Gated(cfg.pool, Readings(Offered(req), snaps), req.model, now), Offered(req));
  }

  // ----- who is refused, and which picks are handled

  // A credential is refused or full for the model exactly when its reading is
  // fresh and a window that bears on it is refused, or all that do can be read
  // and one is full.
  lemma GoneExact(cfg: PoolConfig, snaps: map<string, Snapshot>, model: string, now: int, id: string)
    ensures Gone(GatedScore(cfg, snaps, model, now, id)) <==>
            && id in snaps && snaps[id].observedAt.Some? && now - snaps[id].observedAt.value <= cfg.maxStaleness
            && var ws, family := snaps[id].windows, FamilyOf(model);
               || (exists w :: w in ws && BearsOn(w, family) && w.status == REJECTED)
               || ((forall w :: w in ws && BearsOn(w, family) ==> w.util.Fin?)
                   && exists w :: w in ws && BearsOn(w, family) && w.util.Fin? && w.util.r >= 1.0)
  {
    hide BearsOn, FamilyOf, Cost;
    if id in snaps {
      var ws, family := snaps[id].windows, FamilyOf(model);
      SomeBearingIn(ws, family, Known);
      SomeBearingIn(ws, family, Blocking);
      SomeBearingIn(ws, family, Unreadable);
      SomeBearingIn(ws, family, Full);
    }
  }

  lemma SomeBearingIn(ws: seq<Window>, family: string, p: Window -> bool)
    ensures SomeBearing(ws, family, p) <==> exists w :: w in ws && BearsOn(w, family) && p(w)
  {
    hide BearsOn;
    assert forall i :: 0 <= i < |ws| ==> ws[i] in ws;
  }

  // A live conversation is moved off an offered credential exactly when the
  // provider refuses the model there and another candidate is not refused.
  lemma DisplacedExact(cfg: Config, snaps: map<string, Snapshot>, req: Request, now: int, a: string)
    ensures Displaced(cfg, snaps, req, now, a) <==>
            && a in snaps && (exists w :: w in snaps[a].windows && BearsOn(w, FamilyOf(req.model)) && w.status == REJECTED)
            && exists c :: c in Offered(req) && c != a && !Gone(GatedScore(cfg.pool, snaps, req.model, now, c))
  {
    hide BearsOn, FamilyOf, Ranking, ScoreOf, OfferedFrom, Stale;
    if a in snaps {
      SomeBearingIn(snaps[a].windows, FamilyOf(req.model), Blocking);
    }
    forall c | c in Offered(req)
      ensures Refused(Prepared(cfg, snaps, req, now).scores, c) == Gone(GatedScore(cfg.pool, snaps, req.model, now, c))
    {
      ScoresGated(cfg, snaps, req, now, c);
    }
  }

  lemma OfferedExact(req: Request)
    ensures Offered(req) != [] <==> exists c :: c in req.candidates && Offers(req, c)
    ensures forall id :: id in Offered(req) <==> exists c :: c in req.candidates && Offers(req, c) && c.id == id
  {
    hide Offers;
    assert forall i :: 0 <= i < |req.candidates| ==> req.candidates[i] in req.candidates;
    if Offered(req) != [] {
      assert Offered(req)[0] in Offered(req);
    }
    if c :| c in req.candidates && Offers(req, c) {
      assert c.id in OfferedFrom(req, |req.candidates|);
    }
  }

  // The plugin answers a request exactly when it is enabled, the route and
  // model are its own, some candidate of the provider's is offered, and the
  // request has a conversation or some such candidate can take it.
  lemma HandledExact(cfg: Config, snaps: map<string, Snapshot>, t: Table, req: Request, now: int)
    requires Fit(t)
    ensures Handled(Route(cfg, snaps, t, req, now)) <==>
            && cfg.enabled && req.provider != "" && req.governed
            && (exists c :: c in req.candidates && Offers(req, c))
            && (req.key != "" || exists id :: id in Offered(req) && GatedScore(cfg.pool, snaps, req.model, now, id).eligible)
  {
    hide PickCold, PickByAffinity, Ranking, ScoreOf, Stale, Keeps, LiveOn, Fit;
    OfferedExact(req);
    if Governed(cfg, snaps, req, now) {
      if req.key != "" {
        KeyedHandled(cfg, snaps, t, req, now);
      } else if exists id :: id in Offered(req) && GatedScore(cfg.pool, snaps, req.model, now, id).eligible {
        RouteChooses(cfg, snaps, t, req, now, None);
      } else {
        NoneToChoose(cfg, snaps, t, req, now);
      }
    } else if id :| id in Offered(req) && GatedScore(cfg.pool, snaps, req.model, now, id).eligible {
      EligibleFresh(cfg, snaps, req.model, now, id);
    }
  }

  lemma EligibleFresh(cfg: Config, snaps: map<string, Snapshot>, model: string, now: int, id: string)
    ensures GatedScore(cfg.pool, snaps, model, now, id).eligible ==> id in snaps && !Stale(snaps[id], now, cfg.pool.maxStaleness)
  {
    hide ScoreOf;
  }

  lemma KeyedHandled(cfg: Config, snaps: map<string, Snapshot>, t: Table, req: Request, now: int)
    requires Governed(cfg, snaps, req, now) && req.key != ""
    ensures Handled(Route(cfg, snaps, t, req, now))
  {
    hide Ranking, Lookup, Bind, LeastBound, BlockedFor, HasAlternative, Unexpired, Count, OfferedFrom;
  }
}
