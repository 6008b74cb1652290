/** The routing decision: which credential a request is sent to, and what that
    does to the binding table. */
module Scheduler {
  import opened Basics
  import opened Windows
  import opened Pace
  import opened SessionTable

  datatype Candidate = Candidate(id: string, provider: string)

  // A request after its provider is resolved: provider is the governed
  // provider's folded name, empty when the route has none, and governed
  // whether the plugin decides for its model.
  datatype Request = Request(provider: string, governed: bool, model: string, key: string, subagent: bool, parentKey: string,
                             retryOf: string, pinned: bool, candidates: seq<Candidate>)

  datatype Config = Config(enabled: bool, affinity: bool, subagents: bool, pool: PoolConfig)

  datatype DecisionKind = AffinityHit | ColdPick | Failover | Declined

  datatype Decision = Decision(at: int, key: string, model: string, provider: string, chosen: string, previous: string,
                               kind: DecisionKind, subagent: bool)

  // What a pick did: the table it left and the decision it recorded. The host
  // is answered with the chosen credential unless the pick declined.
  datatype Outcome = Outcome(table: Table, decision: Decision)

  // ----- the candidates

  predicate Offers(req: Request, c: Candidate) {
    Lower(c.provider) == Lower(req.provider) && c.id != "" && c.id != req.retryOf
  }

  function Offered(req: Request): (ids: seq<string>)
    ensures forall id :: id in ids ==> id != "" && id != req.retryOf
  {
    OfferedFrom(req, |req.candidates|)
  }

  function OfferedFrom(req: Request, n: nat): (ids: seq<string>)
    requires n <= |req.candidates|
    ensures forall id :: id in ids <==> exists i :: 0 <= i < n && Offers(req, req.candidates[i]) && req.candidates[i].id == id
  {
    if n == 0 then []
    else
      var before, c := OfferedFrom(req, n - 1), req.candidates[n - 1];
      if Offers(req, c) then before + [c.id] else before
  }

  function Readings(ids: seq<string>, snaps: map<string, Snapshot>): map<string, Snapshot> {
    map id | id in snaps && id in ids :: snaps[id]
  }

  ghost predicate Usable(cfg: Config, ids: seq<string>, snaps: map<string, Snapshot>, now: int) {
    exists id :: id in ids && id in snaps && !Stale(snaps[id], now, cfg.pool.maxStaleness)
  }

  // The score of an id, or of one that is not a candidate.
  function ScoreIn(scores: seq<Score>, id: string): (s: Score)
    ensures s.authID == id
  {
    if scores == [] then Unscored(id, NotCandidate)
    else if scores[0].authID == id then scores[0]
    else ScoreIn(scores[1..], id)
  }

  // The provider will not serve it: refused, or reported full.
  predicate Refused(scores: seq<Score>, id: string) {
    ScoreIn(scores, id).reason.Rejected? || ScoreIn(scores, id).reason.Spent?
  }

  ghost predicate HasAlternative(ids: seq<string>, scores: seq<Score>, id: string) {
    exists c :: c in ids && c != id && !Refused(scores, c)
  }

  ghost predicate BlockedFor(snaps: map<string, Snapshot>, id: string, model: string) {
    id in snaps && SomeBearing(snaps[id].windows, FamilyOf(model), Blocking)
  }

  // a is the better home when nothing is eligible: not refused, then fewer
  // live bindings, then the lower id.
  predicate Prefer(scores: seq<Score>, counts: string -> int, a: string, b: string) {
    if Refused(scores, a) != Refused(scores, b) then !Refused(scores, a)
    else if counts(a) != counts(b) then counts(a) < counts(b)
    else IdLess(a, b)
  }

  function LeastBound(scores: seq<Score>, counts: string -> int, ids: seq<string>): string
    requires ids != []
  {
    if |ids| == 1 then ids[0]
    else
      var least := LeastBound(scores, counts, Front(ids));
      if Prefer(scores, counts, Last(ids), least) then Last(ids) else least
  }

  // ----- the decision

  // A request with its candidates and their scores.
  datatype Pick = Pick(req: Request, cfg: Config, now: int, ids: seq<string>, snaps: map<string, Snapshot>, scores: seq<Score>)

  function Decide(p: Pick, kind: DecisionKind, chosen: string, previous: string): Decision {
    Decision(p.now, p.req.key, p.req.model, p.req.provider, chosen, previous, kind, p.req.subagent)
  }

  function LiveCounts(t: Table, now: int): string -> int { id => Count(Unexpired(t.order, t.ttl, now), id) }

  ghost function PickCold(p: Pick, t: Table, previous: string): Outcome
    requires p.ids != []
  {
    var best, req := Head(p.scores), p.req;
    if best.None? && req.key == "" then Outcome(t, Decide(p, Declined, "", ""))
    else
      var chosen := if best.Some? then best.value.authID else LeastBound(p.scores, LiveCounts(t, p.now), p.ids);
      var moves := previous != "" && !req.pinned;
      var t' := if req.key != "" && !req.pinned && p.cfg.affinity then Bind(t, req.provider, req.model, req.key, chosen, p.now).0 else t;
      Outcome(t', Decide(p, if moves then Failover else ColdPick, chosen, if moves then previous else ""))
  }

  // The table after a subagent's request has kept its parent's binding alive.
  function TouchParent(p: Pick, t: Table): Table {
    if p.cfg.subagents && p.req.subagent && p.req.parentKey != ""
    then Lookup(t, p.req.provider, p.req.model, p.req.parentKey, p.now).0 else t
  }

  // A child with no binding of its own on its parent's credential, or the
  // table left for the cold pick.
  ghost function PickByParent(p: Pick, t: Table): (Table, Option<Outcome>) {
    var req := p.req;
    if !p.cfg.subagents || !req.subagent || req.parentKey == "" then (t, None)
    else
      var (t1, parent) := Lookup(t, req.provider, req.model, req.parentKey, p.now);
      if parent.None? || parent.value.authID !in p.ids || BlockedFor(p.snaps, parent.value.authID, req.model) then (t1, None)
      else
        var a := parent.value.authID;
        var t2 := if req.pinned then t1 else Bind(t1, req.provider, req.model, req.key, a, p.now).0;
        (t2, Some(Outcome(t2, Decide(p, AffinityHit, a, ""))))
  }

  ghost function PickByAffinity(p: Pick, t: Table): (Table, Option<Outcome>)
    requires p.ids != []
  {
    var (t1, bound) := Lookup(t, p.req.provider, p.req.model, p.req.key, p.now);
    if bound.None? then PickByParent(p, t1)
    else
      var t2, a := TouchParent(p, t1), bound.value.authID;
      if a !in p.ids then var out := PickCold(p, t2, a); (out.table, Some(out))
      else if BlockedFor(p.snaps, a, p.req.model) && HasAlternative(p.ids, p.scores, a) then
        var out := PickCold(p, t2, a); (out.table, Some(out))
      else (t2, Some(Outcome(t2, Decide(p, AffinityHit, a, ""))))
  }

  ghost function Prepared(cfg: Config, snaps: map<string, Snapshot>, req: Request, now: int): Pick {
    var ids := Offered(req);
    var readings := Readings(ids, snaps);
    Pick(req, cfg, now, ids, readings, Ranking(Gated(cfg.pool, readings, req.model, now), ids))
  }

  // The request is one the plugin decides.
  ghost predicate Governed(cfg: Config, snaps: map<string, Snapshot>, req: Request, now: int) {
    && cfg.enabled && req.provider != "" && req.governed && Offered(req) != []
    && (req.key != "" || Usable(cfg, Offered(req), snaps, now))
  }

  ghost function Route(cfg: Config, snaps: map<string, Snapshot>, t: Table, req: Request, now: int): Outcome {
    var p := Prepared(cfg, snaps, req, now);
    if !Governed(cfg, snaps, req, now) then Outcome(t, Decide(p, Declined, "", ""))
    else if cfg.affinity && req.key != "" then
      var (t1, out) := PickByAffinity(p, t);
      if out.Some? then out.value else PickCold(p, t1, "")
    else PickCold(p, t, "")
  }

  // ----- what the scores of a ranking say

  lemma {:induction false} ScoreInHolds(scores: seq<Score>, id: string)
    ensures (exists s :: s in scores && s.authID == id) ==> ScoreIn(scores, id) in scores
    ensures (forall s :: s in scores ==> s.authID != id) ==> ScoreIn(scores, id) == Unscored(id, NotCandidate)
  {
    if scores != [] {
      assert scores == [scores[0]] + scores[1..];
      ScoreInHolds(scores[1..], id);
    }
  }

  // In a ranking, a candidate's score is its own.
  lemma ScoreInRanking(score: string -> Score, ids: seq<string>, id: string)
    requires NamesItsOwn(score)
    ensures ScoreIn(Ranking(score, ids), id) == if id in ids then score(id) else Unscored(id, NotCandidate)
  {
    hide Ranking;
    RankingHolds(score, ids);
    ScoreInHolds(Ranking(score, ids), id);
    if id in ids {
      assert score(id) in Ranking(score, ids);
    }
  }

  // The head of a ranking is an eligible candidate, and no eligible candidate
  // is left when it has none.
  lemma HeadOfRanking(score: string -> Score, ids: seq<string>)
    requires NamesItsOwn(score)
    ensures var best := Head(Ranking(score, ids));
            && (best.Some? ==> best.value.authID in ids && best.value == score(best.value.authID) && best.value.eligible)
            && (best.None? ==> forall id :: id in ids ==> !score(id).eligible)
  {
    hide Ranking, Better;
    var ss := Ranking(score, ids);
    RankingHolds(score, ids);
    if ss != [] {
      assert ss[0] in ss;
    }
    if Head(ss).None? {
      forall id | id in ids
        ensures !score(id).eligible
      {
        assert score(id) in ss;
        var i :| 0 <= i < |ss| && ss[i] == score(id);
        IneligibleHead(ss, i);
      }
    }
  }

  lemma IneligibleHead(ss: seq<Score>, i: nat)
    requires Arranged(ss) && i < |ss| && !ss[0].eligible
    ensures !ss[i].eligible
  {
    assert i > 0 ==> Better(ss[0], ss[i]);
  }

  // ----- the fallback home

  lemma PreferTotal(scores: seq<Score>, counts: string -> int, a: string, b: string)
    ensures a == b || Prefer(scores, counts, a, b) || Prefer(scores, counts, b, a)
    ensures !(Prefer(scores, counts, a, b) && Prefer(scores, counts, b, a)) && !Prefer(scores, counts, a, a)
  {
    hide Refused;
    IdLessTotal(a, b);
    IdLessTotal(a, a);
  }

  lemma PreferChain(scores: seq<Score>, counts: string -> int, a: string, b: string, c: string)
    requires Prefer(scores, counts, a, b) && Prefer(scores, counts, b, c)
    ensures Prefer(scores, counts, a, c)
  {
    hide Refused;
    if IdLess(a, b) && IdLess(b, c) {
      IdLessChain(a, b, c);
    }
  }

  // The fallback home is the candidate preferred to every other.
  lemma {:induction false} LeastBoundIsLeast(scores: seq<Score>, counts: string -> int, ids: seq<string>)
    requires ids != []
    ensures LeastBound(scores, counts, ids) in ids
    ensures forall id :: id in ids && id != LeastBound(scores, counts, ids) ==> Prefer(scores, counts, LeastBound(scores, counts, ids), id)
  {
    hide Prefer;
    var least := LeastBound(scores, counts, ids);
    if |ids| > 1 {
      var p, last := Front(ids), Last(ids);
      var before := LeastBound(scores, counts, p);
      LeastBoundIsLeast(scores, counts, p);
      assert ids == p + [last];
      PreferTotal(scores, counts, last, before);
      forall id | id in ids && id != least
        ensures Prefer(scores, counts, least, id)
      {
        if Prefer(scores, counts, last, before) && id != before {
          PreferChain(scores, counts, last, before, id);
        }
      }
    }
  }

  lemma LeastBoundOfSet(scores: seq<Score>, counts: string -> int, a: seq<string>, b: seq<string>)
    requires a != [] && b != [] && forall id :: id in a <==> id in b
    ensures LeastBound(scores, counts, a) == LeastBound(scores, counts, b)
  {
    hide Prefer;
    LeastBoundIsLeast(scores, counts, a);
    LeastBoundIsLeast(scores, counts, b);
    PreferTotal(scores, counts, LeastBound(scores, counts, a), LeastBound(scores, counts, b));
  }
}
