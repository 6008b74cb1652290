/** The pick as the program runs it: over the mutable binding table, the
    snapshots of one instant and the decision log, proved against Scheduler. */
module Plugin {
  import opened Basics
  import opened Windows
  import opened Pace
  import opened SessionTable
  import opened SessionStore
  import opened Scheduler
  import opened Decisions

  function Answer(out: Outcome): Option<string> {
    if out.decision.kind.Declined? then None else Some(out.decision.chosen)
  }

  // ----- reading the request

  method OfferedIds(req: Request) returns (ids: seq<string>)
    ensures ids == Offered(req)
  {
    ids := [];
    for i := 0 to |req.candidates|
      invariant ids == OfferedFrom(req, i)
    {
      var c := req.candidates[i];
      if Lower(c.provider) == Lower(req.provider) && c.id != "" && c.id != req.retryOf {
        ids := ids + [c.id];
      }
    }
  }

  method GatherReadings(cfg: Config, ids: seq<string>, snaps: map<string, Snapshot>, now: int)
    returns (readings: map<string, Snapshot>, usable: bool)
    ensures readings == Readings(ids, snaps) && usable == Usable(cfg, ids, snaps, now)
  {
    readings, usable := map[], false;
    for i := 0 to |ids|
      invariant readings == Readings(ids[..i], snaps) && usable == Usable(cfg, ids[..i], snaps, now)
    {
      var id := ids[i];
      assert ids[..i + 1] == ids[..i] + [id];
      if id !in snaps {
        continue;
      }
      readings := readings[id := snaps[id]];
      if !Stale(snaps[id], now, cfg.pool.maxStaleness) {
        usable := true;
      }
    }
    assert ids[..|ids|] == ids;
  }

  method IsBlocked(snaps: map<string, Snapshot>, id: string, model: string) returns (r: bool)
    ensures r == BlockedFor(snaps, id, model)
  {
    if id !in snaps {
      return false;
    }
    var ws, family := snaps[id].windows, FamilyOf(model);
    for i := 0 to |ws|
      invariant !SomeBearing(ws[..i], family, Blocking)
    {
      SomeBearingNext(ws, i, family, Blocking);
      if Blocking(ws[i]) && BearsOn(ws[i], family) {
        return true;
      }
    }
    assert ws[..|ws|] == ws;
    return false;
  }

  method HasAlternativeHome(ids: seq<string>, scores: seq<Score>, id: string) returns (r: bool)
    ensures r == HasAlternative(ids, scores, id)
  {
    for i := 0 to |ids|
      invariant forall k :: 0 <= k < i ==> ids[k] == id || Refused(scores, ids[k])
    {
      if ids[i] != id && !Refused(scores, ids[i]) {
        return true;
      }
    }
    return false;
  }

  // ----- the fallback home

  function InsertId(id: string, ids: seq<string>): seq<string> {
    if ids == [] || !IdLess(ids[0], id) then [id] + ids else [ids[0]] + InsertId(id, ids[1..])
  }

  function SortIds(ids: seq<string>): seq<string> {
    if ids == [] then [] else InsertId(ids[0], SortIds(ids[1..]))
  }

  ghost predicate Rising(ids: seq<string>) {
    forall i, j :: 0 <= i < j < |ids| ==> !IdLess(ids[j], ids[i])
  }

  lemma {:induction false} InsertIdHolds(id: string, ids: seq<string>)
    requires Rising(ids)
    ensures Rising(InsertId(id, ids)) && forall x :: x in InsertId(id, ids) <==> x == id || x in ids
  {
    hide IdLess;
    if ids != [] {
      assert ids == [ids[0]] + ids[1..];
      if IdLess(ids[0], id) {
        var rest := InsertId(id, ids[1..]);
        InsertIdHolds(id, ids[1..]);
        forall j | 0 <= j < |rest|
          ensures !IdLess(rest[j], ids[0])
        {
          assert rest[j] in rest;
          IdLessTotal(ids[0], id);
          if rest[j] != id {
            var k :| 0 <= k < |ids| - 1 && ids[1..][k] == rest[j];
            assert ids[k + 1] == rest[j];
          }
        }
      } else {
        forall j | 0 <= j < |ids|
          ensures !IdLess(ids[j], id)
        {
          NotLessChain(ids[j], ids[0], id);
          assert j > 0 ==> !IdLess(ids[j], ids[0]);
          IdLessTotal(ids[0], ids[0]);
        }
      }
    }
  }

  lemma NotLessChain(a: string, b: string, c: string)
    requires !IdLess(b, c)
    ensures !IdLess(a, b) ==> !IdLess(a, c)
  {
    IdLessTotal(a, b);
    IdLessTotal(b, c);
    if IdLess(b, a) && IdLess(a, c) {
      IdLessChain(b, a, c);
    }
  }

  lemma {:induction false} SortIdsHolds(ids: seq<string>)
    ensures Rising(SortIds(ids)) && forall x :: x in SortIds(ids) <==> x in ids
  {
    if ids != [] {
      SortIdsHolds(ids[1..]);
      InsertIdHolds(ids[0], SortIds(ids[1..]));
      assert ids == [ids[0]] + ids[1..];
    }
  }

  function CountIn(counts: map<string, int>, id: string): int { if id in counts then counts[id] else 0 }

  method LeastBoundId(scores: seq<Score>, counts: map<string, int>, ids: seq<string>) returns (chosen: string)
    requires ids != []
    ensures chosen == LeastBound(scores, id => CountIn(counts, id), ids)
  {
    hide Prefer;
    var sorted := SortIds(ids);
    ghost var f := id => CountIn(counts, id);
    SortIdsHolds(ids);
    assert ids[0] in sorted;
    chosen := sorted[0];
    for i := 1 to |sorted|
      invariant chosen in sorted[..i]
      invariant forall id :: id in sorted[..i] && id != chosen ==> Prefer(scores, f, chosen, id)
    {
      var id := sorted[i];
      assert sorted[..i + 1] == sorted[..i] + [id];
      NoBefore(sorted, i, chosen);
      PreferSteps(scores, f, id, chosen);
      ghost var was := chosen;
      if Refused(scores, id) != Refused(scores, chosen) {
        if !Refused(scores, id) {
          chosen := id;
        }
      } else if CountIn(counts, id) < CountIn(counts, chosen) {
        chosen := id;
      }
      forall x | x in sorted[..i + 1] && x != chosen
        ensures Prefer(scores, f, chosen, x)
      {
        if chosen != was && x != was {
          PreferChain(scores, f, chosen, was, x);
        }
      }
    }
    assert sorted[..|sorted|] == sorted;
    LeastBoundIsLeast(scores, f, ids);
    PreferTotal(scores, f, chosen, LeastBound(scores, f, ids));
  }

  lemma NoBefore(sorted: seq<string>, i: nat, c: string)
    requires Rising(sorted) && i < |sorted| && c in sorted[..i]
    ensures !IdLess(sorted[i], c)
  {
  }

  // With c not after id, the loop's two tests decide which is preferred.
  lemma PreferSteps(scores: seq<Score>, counts: string -> int, id: string, c: string)
    requires !IdLess(id, c)
    ensures Refused(scores, id) != Refused(scores, c) ==>
              (if Refused(scores, id) then Prefer(scores, counts, c, id) else Prefer(scores, counts, id, c))
    ensures Refused(scores, id) == Refused(scores, c) ==>
              (if counts(id) < counts(c) then Prefer(scores, counts, id, c) else id == c || Prefer(scores, counts, c, id))
  {
    hide Refused;
    IdLessTotal(id, c);
  }

  lemma {:induction false} LeastBoundSame(scores: seq<Score>, f: string -> int, g: string -> int, ids: seq<string>)
    requires ids != [] && forall id :: f(id) == g(id)
    ensures LeastBound(scores, f, ids) == LeastBound(scores, g, ids)
  {
    if |ids| > 1 {
      LeastBoundSame(scores, f, g, Front(ids));
    }
  }

  // A tally reads as the count of every id.
  lemma TalliesCount(counts: map<string, int>, order: seq<Filed>)
    requires Tallies(counts, order)
    ensures forall id :: CountIn(counts, id) == Count(order, id)
  {
  }

  // ----- the plugin

  class Plugin {
    const bindings: Store
    const log: DecisionLog<Decision>

    constructor (bindings: Store, log: DecisionLog<Decision>)
      ensures this.bindings == bindings && this.log == log
    {
      this.bindings, this.log := bindings, log;
    }

    // Routes one request: the table is left, the decision logged and the host
    // answered as Route says.
    method Pick(cfg: Config, snaps: map<string, Snapshot>, req: Request, now: int) returns (answer: Option<string>)
      requires bindings.Valid() && log.Valid()
      modifies bindings, bindings.order, log, log.entries
      ensures bindings.Valid() && log.Valid() && log.entries == old(log.entries)
      ensures var out := Route(cfg, snaps, old(bindings.State()), req, now);
              && bindings.State() == out.table && answer == Answer(out)
              && log.Kept() == LastN(old(log.Kept()) + [out.decision], log.entries.Length)
    {
      hide Indexed, Tallies, LastN;
      var d := Decided(cfg, snaps, req, now);
      log.Add(d);
      answer := if d.kind.Declined? then None else Some(d.chosen);
    }

    method Decided(cfg: Config, snaps: map<string, Snapshot>, req: Request, now: int) returns (d: Decision)
      requires bindings.Valid()
      modifies bindings, bindings.order
      ensures bindings.Valid() && fresh(bindings.Nodes() - old(bindings.Nodes()))
      ensures Outcome(bindings.State(), d) == Route(cfg, snaps, old(bindings.State()), req, now)
    {
      hide Indexed, Tallies, Ranking, OfferedFrom, Usable, PickByAffinity, PickCold;
      d := Decision(now, req.key, req.model, req.provider, "", "", Declined, req.subagent);
      if !cfg.enabled || req.provider == "" || !req.governed {
        return;
      }
      var ids := OfferedIds(req);
      if |ids| == 0 {
        return;
      }
      var readings, usable := GatherReadings(cfg, ids, snaps, now);
      if req.key == "" && !usable {
        return;
      }
      var scores := RankWithStaleness(cfg.pool, readings, ids, req.model, now);
      RankingHolds(Gated(cfg.pool, readings, req.model, now), ids);
      var p := Scheduler.Pick.Pick(req, cfg, now, ids, readings, scores);
      if cfg.affinity && req.key != "" {
        var followed := FollowBinding(p);
        if followed.Some? {
          return followed.value;
        }
      }
      d := PickAfresh(p, "");
    }

    method PickAfresh(p: Pick, previous: string) returns (d: Decision)
      requires bindings.Valid() && p.ids != [] && Arranged(p.scores)
      modifies bindings, bindings.order
      ensures bindings.Valid() && fresh(bindings.Nodes() - old(bindings.Nodes()))
      ensures Outcome(bindings.State(), d) == PickCold(p, old(bindings.State()), previous)
    {
      hide Indexed, Better, LeastBound, Unexpired, Count, Tallies, Bind, Arranged, IsBest;
      var req := p.req;
      var best := Best(p.scores);
      BestIsHead(p.scores, best);
      var chosen;
      if best.Some? {
        chosen := best.value.authID;
      } else {
        if req.key == "" {
          return Decide(p, Declined, "", "");
        }
        var counts := bindings.CountByAuth(p.now);
        TalliesCount(counts, Unexpired(bindings.Contents(), bindings.ttl, p.now));
        LeastBoundSame(p.scores, id => CountIn(counts, id), LiveCounts(bindings.State(), p.now), p.ids);
        chosen := LeastBoundId(p.scores, counts, p.ids);
      }
      var moves := previous != "" && !req.pinned;
      if req.key != "" && !req.pinned && p.cfg.affinity {
        var _ := bindings.Bind(req.provider, req.model, req.key, chosen, p.now);
      }
      d := Decide(p, if moves then Failover else ColdPick, chosen, if moves then previous else "");
    }

    // The rule of the conversation's own binding; None when it has none and
    // its parent's decides nothing.
    method FollowBinding(p: Pick) returns (d: Option<Decision>)
      requires bindings.Valid() && p.ids != [] && Arranged(p.scores)
      modifies bindings, bindings.order
      ensures bindings.Valid() && fresh(bindings.Nodes() - old(bindings.Nodes()))
      ensures var (t', out) := PickByAffinity(p, old(bindings.State()));
              bindings.State() == t' && (d.Some? <==> out.Some?) && (d.Some? ==> out.value == Outcome(t', d.value))
    {
      hide Indexed, Tallies, Lookup, Bind, PickCold, PickByParent, BlockedFor, HasAlternative, Arranged;
      var req := p.req;
      var bound := bindings.Lookup(req.provider, req.model, req.key, p.now);
      if bound.None? {
        d := FollowParent(p);
        return;
      }
      if p.cfg.subagents && req.subagent && req.parentKey != "" {
        var _ := bindings.Lookup(req.provider, req.model, req.parentKey, p.now);
      }
      var a := bound.value.authID;
      var moving := a !in p.ids;
      if !moving {
        var blocked := IsBlocked(p.snaps, a, req.model);
        if blocked {
          moving := HasAlternativeHome(p.ids, p.scores, a);
        }
      }
      if moving {
        var cold := PickAfresh(p, a);
        return Some(cold);
      }
      d := Some(Decide(p, AffinityHit, a, ""));
    }

    method FollowParent(p: Pick) returns (d: Option<Decision>)
      requires bindings.Valid()
      modifies bindings, bindings.order
      ensures bindings.Valid() && fresh(bindings.Nodes() - old(bindings.Nodes()))
      ensures var (t', out) := PickByParent(p, old(bindings.State()));
              bindings.State() == t' && (d.Some? <==> out.Some?) && (d.Some? ==> out.value == Outcome(t', d.value))
    {
      hide Indexed, Tallies, Lookup, Bind, BlockedFor;
      var req := p.req;
      if !p.cfg.subagents || !req.subagent || req.parentKey == "" {
        return None;
      }
      var parent := bindings.Lookup(req.provider, req.model, req.parentKey, p.now);
      if parent.None? || parent.value.authID !in p.ids {
        return None;
      }
      var a := parent.value.authID;
      var blocked := IsBlocked(p.snaps, a, req.model);
      if blocked {
        return None;
      }
      if !req.pinned {
        var _ := bindings.Bind(req.provider, req.model, req.key, a, p.now);
      }
      d := Some(Decide(p, AffinityHit, a, ""));
    }
  }
}
