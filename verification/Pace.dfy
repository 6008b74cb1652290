/** Scoring credentials against the pace curve, and the order the scores rank
    in. The curve's unit shape is a parameter: any function of the elapsed
    share. */
module Pace {
  import opened Basics
  import opened Windows

  datatype PaceConfig = PaceConfig(landing: real, shape: real -> real, weeklyWeight: real, sessionWeight: real, scopedWeight: real)

  datatype Reason = Eligible | Rejected | NoSnapshot | Spent | FetchFailed | NoWindow | BadReading | StaleReading | NotCandidate

  datatype WindowScore = WindowScore(kind: Kind, scope: string, elapsed: real, target: real, util: Float,
                                     slack: Float, weight: real, resetsAt: Option<int>)

  datatype Score = Score(authID: string, cost: Float, sessionOnly: bool, windows: seq<WindowScore>, eligible: bool, reason: Reason)

  // ----- floating-point terms, rounding aside

  function Sub(a: Float, b: Float): Float {
    match (a, b)
    case (Fin(x), Fin(y)) => Fin(x - y)
    case (NaN, _) => NaN
    case (_, NaN) => NaN
    case (PosInf, PosInf) => NaN
    case (NegInf, NegInf) => NaN
    case (PosInf, _) => PosInf
    case (NegInf, _) => NegInf
    case (_, PosInf) => NegInf
    case (_, NegInf) => PosInf
  }

  function Scale(w: real, x: Float): Float {
    match x
    case Fin(r) => Fin(w * r)
    case NaN => NaN
    case PosInf => if w > 0.0 then PosInf else if w < 0.0 then NegInf else NaN
    case NegInf => if w > 0.0 then NegInf else if w < 0.0 then PosInf else NaN
  }

  // The order of two readings neither of which is NaN.
  predicate FloatLess(a: Float, b: Float) {
    match (a, b)
    case (Fin(x), Fin(y)) => x < y
    case (NegInf, b) => b != NegInf && b != NaN
    case (a, PosInf) => a != PosInf && a != NaN
    case _ => false
  }

  predicate Known(w: Window) { true }

  predicate Unreadable(w: Window) { !w.util.Fin? }

  predicate Full(w: Window) { w.util == PosInf || (w.util.Fin? && w.util.r >= 1.0) }

  // ----- one credential

  function Target(cfg: PaceConfig, elapsed: real): real {
    var e := if elapsed < 0.0 then 0.0 else if elapsed > 1.0 then 1.0 else elapsed;
    var t := cfg.landing * cfg.shape(e);
    if t < 1.0 then t else 1.0
  }

  // On a shape that rises from 0 to 1, the target rises from 0 and never
  // passes full.
  lemma TargetRises(cfg: PaceConfig, x: real, y: real)
    requires cfg.landing >= 0.0 && cfg.shape(0.0) == 0.0 && cfg.shape(1.0) == 1.0
    requires forall a: real, b: real :: 0.0 <= a <= b <= 1.0 ==> cfg.shape(a) <= cfg.shape(b)
    requires x <= y
    ensures 0.0 <= Target(cfg, x) <= Target(cfg, y) <= 1.0
    ensures Target(cfg, 0.0) == 0.0
  {
    var a := if x < 0.0 then 0.0 else if x > 1.0 then 1.0 else x;
    var b := if y < 0.0 then 0.0 else if y > 1.0 then 1.0 else y;
    assert cfg.shape(0.0) <= cfg.shape(a) <= cfg.shape(b);
    ScaleRises(cfg.landing, cfg.shape(0.0), cfg.shape(a));
    ScaleRises(cfg.landing, cfg.shape(a), cfg.shape(b));
  }

  lemma ScaleRises(w: real, x: real, y: real)
    requires w >= 0.0 && x <= y
    ensures w * x <= w * y && w * 0.0 == 0.0
  {
    assert w * (y - x) >= 0.0 && w * (y - x) == w * y - w * x;
  }

  predicate Open(w: Window) { w.resetsAt.Some? && w.duration > 0 }

  function WeightOf(cfg: PaceConfig, w: Window, onlySession: bool): real {
    match w.kind
    case Session => if onlySession then 1.0 else cfg.sessionWeight
    case Weekly => cfg.weeklyWeight
    case WeeklyScoped => cfg.scopedWeight
    case OtherKind(_) => 0.0
  }

  ghost predicate SessionAlone(ws: seq<Window>, family: string) {
    && (exists i :: 0 <= i < |ws| && ws[i].kind.Session?)
    && (forall i :: 0 <= i < |ws| && !ws[i].kind.Session? ==> !BearsOn(ws[i], family))
  }

  function Weight(cfg: PaceConfig, w: Window, family: string, only: bool): real {
    if BearsOn(w, family) && Open(w) then WeightOf(cfg, w, only) else 0.0
  }

  function Slack(cfg: PaceConfig, w: Window, now: int): Float { Sub(Fin(Target(cfg, Elapsed(w, now))), w.util) }

  function WindowScored(cfg: PaceConfig, w: Window, family: string, only: bool, now: int): WindowScore {
    WindowScore(w.kind, w.scope, Elapsed(w, now), Target(cfg, Elapsed(w, now)), w.util, Slack(cfg, w, now),
                Weight(cfg, w, family, only), w.resetsAt)
  }

  // The weighted sum of how far the windows run over their targets.
  function Cost(cfg: PaceConfig, ws: seq<Window>, family: string, only: bool, now: int): Float {
    if ws == [] then Fin(0.0)
    else
      var w, before := Last(ws), Cost(cfg, Front(ws), family, only, now);
      if Weight(cfg, w, family, only) == 0.0 then before
      else Sub(before, Scale(Weight(cfg, w, family, only), Slack(cfg, w, now)))
  }

  // Some window bearing on the family satisfies p.
  ghost predicate SomeBearing(ws: seq<Window>, family: string, p: Window -> bool) {
    exists i :: 0 <= i < |ws| && BearsOn(ws[i], family) && p(ws[i])
  }

  // Why a credential cannot take the family, the gravest reason first.
  ghost function Verdict(snap: Snapshot, family: string): Reason {
    if snap.windows == [] then if snap.err != "" then FetchFailed else NoWindow
    else if !SomeBearing(snap.windows, family, Known) then NoWindow
    else if SomeBearing(snap.windows, family, Blocking) then Rejected
    else if SomeBearing(snap.windows, family, Unreadable) then BadReading
    else if SomeBearing(snap.windows, family, Full) then Spent
    else Eligible
  }

  // The evaluation of one credential for one family.
  ghost function ScoreOf(cfg: PaceConfig, snap: Snapshot, family: string, now: int): Score {
    var ws, reason := snap.windows, Verdict(snap, family);
    var only := ws != [] && snap.source.UsageEndpoint? && SessionAlone(ws, family);
    Score(snap.authID, Cost(cfg, ws, family, only, now), only,
          seq(|ws|, i requires 0 <= i < |ws| => WindowScored(cfg, ws[i], family, only, now)), reason.Eligible?, reason)
  }

  method IsSessionOnly(ws: seq<Window>, family: string) returns (r: bool)
    ensures r == SessionAlone(ws, family)
  {
    r := false;
    for i := 0 to |ws|
      invariant r == exists k :: 0 <= k < i && ws[k].kind.Session?
      invariant forall k :: 0 <= k < i && !ws[k].kind.Session? ==> !BearsOn(ws[k], family)
    {
      if ws[i].kind.Session? {
        r := true;
      } else if BearsOn(ws[i], family) {
        return false;
      }
    }
  }

  method ScoreAuth(cfg: PaceConfig, snap: Snapshot, model: string, now: int) returns (s: Score)
    ensures s == ScoreOf(cfg, snap, FamilyOf(model), now)
  {
    hide FamilyOf, Elapsed, Target, BearsOn, WeightOf, Sub, Scale, Cost, SomeBearing, SessionAlone;
    var ws := snap.windows;
    if |ws| == 0 {
      NoCost(cfg, FamilyOf(model), now);
      return Score(snap.authID, Fin(0.0), false, [], false, if snap.err != "" then FetchFailed else NoWindow);
    }
    var family := FamilyOf(model);
    var only := false;
    if snap.source.UsageEndpoint? {
      only := IsSessionOnly(ws, family);
    }
    var bearing, rejected, spent, unreadable := 0, false, false, false;
    var cost, scored := Fin(0.0), [];
    NoCost(cfg, family, now);
    assert ws[..0] == [];
    for i := 0 to |ws|
      invariant bearing > 0 <==> SomeBearing(ws[..i], family, Known)
      invariant bearing >= 0
      invariant rejected == SomeBearing(ws[..i], family, Blocking)
      invariant unreadable == SomeBearing(ws[..i], family, Unreadable)
      invariant spent == SomeBearing(ws[..i], family, Full)
      invariant cost == Cost(cfg, ws[..i], family, only, now)
      invariant |scored| == i && forall k :: 0 <= k < i ==> scored[k] == WindowScored(cfg, ws[k], family, only, now)
    {
      var w := ws[i];
      SomeBearingNext(ws, i, family, Known);
      SomeBearingNext(ws, i, family, Blocking);
      SomeBearingNext(ws, i, family, Unreadable);
      SomeBearingNext(ws, i, family, Full);
      CostNext(cfg, ws, i, family, only, now);
      var elapsed := Elapsed(w, now);
      var target := Target(cfg, elapsed);
      var slack := Sub(Fin(target), w.util);
      var weight := 0.0;
      if BearsOn(w, family) {
        bearing := bearing + 1;
        rejected := rejected || Blocking(w);
        spent := spent || Full(w);
        unreadable := unreadable || Unreadable(w);
        if Open(w) {
          weight := WeightOf(cfg, w, only);
          if weight != 0.0 {
            cost := Sub(cost, Scale(weight, slack));
          }
        }
      }
      scored := scored + [WindowScore(w.kind, w.scope, elapsed, target, w.util, slack, weight, w.resetsAt)];
    }
    assert ws[..|ws|] == ws;
    var reason := if bearing == 0 then NoWindow else if rejected then Rejected
                  else if unreadable then BadReading else if spent then Spent else Eligible;
    s := Score(snap.authID, cost, only, scored, reason.Eligible?, reason);
  }

  lemma NoCost(cfg: PaceConfig, family: string, now: int)
    ensures forall only :: Cost(cfg, [], family, only, now) == Fin(0.0)
    ensures forall p :: !SomeBearing([], family, p)
  {
  }

  lemma CostNext(cfg: PaceConfig, ws: seq<Window>, i: nat, family: string, only: bool, now: int)
    requires i < |ws|
    ensures var before, weight := Cost(cfg, ws[..i], family, only, now), Weight(cfg, ws[i], family, only);
            Cost(cfg, ws[..i + 1], family, only, now) ==
            if weight == 0.0 then before else Sub(before, Scale(weight, Slack(cfg, ws[i], now)))
  {
    assert Front(ws[..i + 1]) == ws[..i];
  }

  lemma SomeBearingNext(ws: seq<Window>, i: nat, family: string, p: Window -> bool)
    requires i < |ws|
    ensures SomeBearing(ws[..i + 1], family, p) <==> SomeBearing(ws[..i], family, p) || (BearsOn(ws[i], family) && p(ws[i]))
  {
    if SomeBearing(ws[..i], family, p) {
      var k :| 0 <= k < i && BearsOn(ws[..i][k], family) && p(ws[..i][k]);
      assert ws[..i + 1][k] == ws[..i][k];
    }
    assert ws[..i + 1][i] == ws[i];
    if SomeBearing(ws[..i + 1], family, p) {
      var k :| 0 <= k < i + 1 && BearsOn(ws[..i + 1][k], family) && p(ws[..i + 1][k]);
      assert k < i ==> ws[..i][k] == ws[..i + 1][k];
    }
  }

  // ----- the ranking order

  // The order of credential ids.
  predicate IdLess(a: string, b: string) {
    b != "" && (a == "" || a[0] < b[0] || (a[0] == b[0] && IdLess(a[1..], b[1..])))
  }

  lemma {:induction false} IdLessTotal(a: string, b: string)
    ensures a == b || IdLess(a, b) || IdLess(b, a)
    ensures !(IdLess(a, b) && IdLess(b, a)) && (a == b ==> !IdLess(a, b))
  {
    if a != "" && b != "" {
      IdLessTotal(a[1..], b[1..]);
      assert a == [a[0]] + a[1..] && b == [b[0]] + b[1..];
    }
  }

  lemma {:induction false} IdLessChain(a: string, b: string, c: string)
    requires IdLess(a, b) && IdLess(b, c)
    ensures IdLess(a, c)
  {
    if a != "" {
      if IdLess(a[1..], b[1..]) && IdLess(b[1..], c[1..]) {
        IdLessChain(a[1..], b[1..], c[1..]);
      }
    }
  }

  predicate Better(a: Score, b: Score) {
    if a.eligible != b.eligible then a.eligible
    else if a.sessionOnly != b.sessionOnly then a.sessionOnly
    else if a.cost.NaN? != b.cost.NaN? then b.cost.NaN?
    else if !a.cost.NaN? && a.cost != b.cost then FloatLess(a.cost, b.cost)
    else IdLess(a.authID, b.authID)
  }

  // Scores of distinct credentials are strictly and totally ordered, NaN costs
  // included.
  lemma BetterTotal(a: Score, b: Score)
    ensures a.authID != b.authID ==> Better(a, b) || Better(b, a)
    ensures !(Better(a, b) && Better(b, a)) && !Better(a, a)
  {
    IdLessTotal(a.authID, b.authID);
    IdLessTotal(a.authID, a.authID);
  }

  lemma BetterChain(a: Score, b: Score, c: Score)
    requires Better(a, b) && Better(b, c)
    ensures Better(a, c)
  {
    if IdLess(a.authID, b.authID) && IdLess(b.authID, c.authID) {
      IdLessChain(a.authID, b.authID, c.authID);
    }
  }

  ghost predicate Arranged(ss: seq<Score>) {
    forall i, j :: 0 <= i < j < |ss| ==> Better(ss[i], ss[j])
  }

  // There is one arrangement of a set of scores.
  lemma {:induction false} ArrangedOnce(x: seq<Score>, y: seq<Score>)
    requires Arranged(x) && Arranged(y) && forall s :: s in x <==> s in y
    ensures x == y
  {
    hide Better;
    if x == [] {
      if y != [] { HeadMember(y); }
    } else {
      assert x[0] in y && y[0] in x;
      var k :| 0 <= k < |y| && y[k] == x[0];
      var j :| 0 <= j < |x| && x[j] == y[0];
      BetterTotal(x[0], y[0]);
      assert x[0] == y[0];
      forall s
        ensures s in x[1..] <==> s in y[1..]
      {
        TailMembers(x, s);
        TailMembers(y, s);
      }
      ArrangedOnce(x[1..], y[1..]);
      assert x == [x[0]] + x[1..] && y == [y[0]] + y[1..];
    }
  }

  lemma HeadMember(ss: seq<Score>)
    requires ss != []
    ensures ss[0] in ss
  {
  }

  lemma TailMembers(ss: seq<Score>, s: Score)
    requires ss != [] && Arranged(ss)
    ensures s in ss[1..] <==> s in ss && s != ss[0]
  {
    BetterTotal(ss[0], ss[0]);
    if s in ss && s != ss[0] {
      var i :| 0 <= i < |ss| && ss[i] == s;
      assert ss[1..][i - 1] == s;
    }
    if s in ss[1..] {
      var i :| 0 <= i < |ss| - 1 && ss[1..][i] == s;
      assert ss[i + 1] == s;
    }
  }

  // ----- ranking

  function InsertScore(s: Score, ss: seq<Score>): seq<Score> {
    if ss == [] || Better(s, ss[0]) then [s] + ss else [ss[0]] + InsertScore(s, ss[1..])
  }

  function SortScores(ss: seq<Score>): seq<Score> {
    if ss == [] then [] else InsertScore(ss[0], SortScores(ss[1..]))
  }

  lemma {:induction false} InsertMembers(s: Score, ss: seq<Score>)
    ensures forall x :: x in InsertScore(s, ss) <==> x == s || x in ss
  {
    if ss != [] && !Better(s, ss[0]) {
      InsertMembers(s, ss[1..]);
      assert ss == [ss[0]] + ss[1..];
    }
  }

  lemma {:induction false} InsertArranged(s: Score, ss: seq<Score>)
    requires Arranged(ss) && forall x :: x in ss ==> x.authID != s.authID
    ensures Arranged(InsertScore(s, ss))
  {
    hide Better;
    if ss != [] {
      BetterTotal(s, ss[0]);
      if Better(s, ss[0]) {
        forall j | 0 <= j < |ss|
          ensures Better(s, ss[j])
        {
          if j > 0 { BetterChain(s, ss[0], ss[j]); }
        }
      } else {
        var rest := InsertScore(s, ss[1..]);
        InsertArranged(s, ss[1..]);
        InsertMembers(s, ss[1..]);
        forall j | 0 <= j < |rest|
          ensures Better(ss[0], rest[j])
        {
          assert rest[j] in rest;
          if rest[j] != s {
            var i :| 0 <= i < |ss| - 1 && ss[1..][i] == rest[j];
            assert ss[i + 1] == rest[j];
          }
        }
      }
    }
  }

  ghost predicate DistinctIds(ss: seq<Score>) {
    forall i, j :: 0 <= i < j < |ss| ==> ss[i].authID != ss[j].authID
  }

  lemma {:induction false} SortArranges(ss: seq<Score>)
    requires DistinctIds(ss)
    ensures Arranged(SortScores(ss)) && forall x :: x in SortScores(ss) <==> x in ss
  {
    if ss != [] {
      hide Better;
      SortArranges(ss[1..]);
      InsertMembers(ss[0], SortScores(ss[1..]));
      assert ss == [ss[0]] + ss[1..];
      forall x | x in SortScores(ss[1..])
        ensures x.authID != ss[0].authID
      {
        var i :| 0 <= i < |ss| - 1 && ss[1..][i] == x;
        assert ss[i + 1] == x;
      }
      InsertArranged(ss[0], SortScores(ss[1..]));
    }
  }

  // The ids in the order they first appear.
  function Dedup(ids: seq<string>): (r: seq<string>)
    ensures forall x :: x in r <==> x in ids
    ensures forall i, j :: 0 <= i < j < |r| ==> r[i] != r[j]
  {
    if ids == [] then []
    else
      var before := Dedup(Front(ids));
      assert ids == Front(ids) + [Last(ids)];
      if Last(ids) in before then before else before + [Last(ids)]
  }

  function ScoreEach(score: string -> Score, ids: seq<string>): (ss: seq<Score>)
    ensures |ss| == |ids| && forall i :: 0 <= i < |ids| ==> ss[i] == score(ids[i])
  {
    seq(|ids|, i requires 0 <= i < |ids| => score(ids[i]))
  }

  // The arrangement of the scores of a list of ids, repeats apart.
  function Ranking(score: string -> Score, ids: seq<string>): seq<Score> { SortScores(ScoreEach(score, Dedup(ids))) }

  ghost predicate NamesItsOwn(score: string -> Score) {
    forall id :: score(id).authID == id
  }

  lemma RankingHolds(score: string -> Score, ids: seq<string>)
    requires NamesItsOwn(score)
    ensures Arranged(Ranking(score, ids))
    ensures forall s :: s in Ranking(score, ids) <==> exists id :: id in ids && s == score(id)
  {
    var each := ScoreEach(score, Dedup(ids));
    SortArranges(each);
    forall s
      ensures s in each <==> exists id :: id in ids && s == score(id)
    {
      if id :| id in ids && s == score(id) {
        var i :| 0 <= i < |Dedup(ids)| && Dedup(ids)[i] == id;
        assert each[i] == s;
      }
      if s in each {
        var i :| 0 <= i < |each| && each[i] == s;
        assert Dedup(ids)[i] in ids;
      }
    }
  }

  // Ranking reads its candidates as a set: order and repeats change nothing.
  lemma RankingOfSet(score: string -> Score, a: seq<string>, b: seq<string>)
    requires NamesItsOwn(score) && forall id :: id in a <==> id in b
    ensures Ranking(score, a) == Ranking(score, b)
  {
    hide Ranking, Arranged;
    RankingHolds(score, a);
    RankingHolds(score, b);
    ArrangedOnce(Ranking(score, a), Ranking(score, b));
  }

  // ----- the pool

  datatype PoolConfig = PoolConfig(pace: PaceConfig, maxStaleness: int)

  function Unscored(id: string, reason: Reason): Score { Score(id, Fin(0.0), false, [], false, reason) }

  ghost function FreshScore(cfg: PaceConfig, snaps: map<string, Snapshot>, model: string, now: int, id: string): Score {
    if id in snaps then ScoreOf(cfg, snaps[id], FamilyOf(model), now).(authID := id) else Unscored(id, NoSnapshot)
  }

  // The score of a candidate behind the gates a pick applies first: a reading
  // there is none of, or one too old to trust.
  ghost function GatedScore(cfg: PoolConfig, snaps: map<string, Snapshot>, model: string, now: int, id: string): (s: Score)
    ensures s.authID == id
  {
    if id in snaps && Stale(snaps[id], now, cfg.maxStaleness) then Unscored(id, StaleReading)
    else FreshScore(cfg.pace, snaps, model, now, id)
  }

  ghost function Fresh(cfg: PaceConfig, snaps: map<string, Snapshot>, model: string, now: int): (f: string -> Score)
    ensures NamesItsOwn(f) && forall id :: f(id) == FreshScore(cfg, snaps, model, now, id)
  {
    id => FreshScore(cfg, snaps, model, now, id)
  }

  ghost function Gated(cfg: PoolConfig, snaps: map<string, Snapshot>, model: string, now: int): (f: string -> Score)
    ensures NamesItsOwn(f) && forall id :: f(id) == GatedScore(cfg, snaps, model, now, id)
  {
    id => GatedScore(cfg, snaps, model, now, id)
  }

  method ScoreWithStaleness(cfg: PoolConfig, snaps: map<string, Snapshot>, id: string, model: string, now: int) returns (s: Score)
    ensures s == GatedScore(cfg, snaps, model, now, id)
  {
    if id !in snaps {
      return Unscored(id, NoSnapshot);
    } else if Stale(snaps[id], now, cfg.maxStaleness) {
      return Unscored(id, StaleReading);
    }
    s := ScoreAuth(cfg.pace, snaps[id], model, now);
    s := s.(authID := id);
  }

  method Rank(cfg: PaceConfig, snaps: map<string, Snapshot>, ids: seq<string>, model: string, now: int) returns (scores: seq<Score>)
    ensures scores == Ranking(Fresh(cfg, snaps, model, now), ids)
  {
    hide SortScores, ScoreOf;
    ghost var f := Fresh(cfg, snaps, model, now);
    scores := [];
    var seen: set<string> := {};
    for i := 0 to |ids|
      invariant forall x :: x in seen <==> x in Dedup(ids[..i])
      invariant scores == ScoreEach(f, Dedup(ids[..i]))
    {
      var id := ids[i];
      assert Front(ids[..i + 1]) == ids[..i];
      if id in seen {
        continue;
      }
      seen := seen + {id};
      if id !in snaps {
        scores := scores + [Unscored(id, NoSnapshot)];
        continue;
      }
      var s := ScoreAuth(cfg, snaps[id], model, now);
      scores := scores + [s.(authID := id)];
    }
    assert ids[..|ids|] == ids;
    scores := SortScores(scores);
  }

  // Ranking with stale readings left out and then named as stale is the
  // arrangement of the gated scores.
  method RankWithStaleness(cfg: PoolConfig, snaps: map<string, Snapshot>, ids: seq<string>, model: string, now: int)
    returns (scores: seq<Score>)
    ensures scores == Ranking(Gated(cfg, snaps, model, now), ids)
  {
    hide Ranking, Better, Stale, ScoreOf;
    var stale := set id | id in snaps && Stale(snaps[id], now, cfg.maxStaleness);
    var current := map id | id in snaps && id !in stale :: snaps[id];
    scores := Rank(cfg.pace, current, ids, model, now);
    ghost var f, g, ranked := Fresh(cfg.pace, current, model, now), Gated(cfg, snaps, model, now), scores;
    for i := 0 to |scores|
      invariant |scores| == |ranked|
      invariant forall k :: 0 <= k < i ==> scores[k] == Named(ranked[k], stale)
      invariant forall k :: i <= k < |scores| ==> scores[k] == ranked[k]
    {
      if scores[i].authID in stale {
        scores := scores[i := scores[i].(reason := StaleReading)];
      }
    }
    assert forall id :: g(id) == Named(f(id), stale);
    NamedRanking(f, g, ids, stale, scores);
  }

  // Naming the stale scores of a ranking gives the ranking of the named ones.
  lemma NamedRanking(f: string -> Score, g: string -> Score, ids: seq<string>, stale: set<string>, scores: seq<Score>)
    requires NamesItsOwn(f) && NamesItsOwn(g) && forall id :: g(id) == Named(f(id), stale)
    requires |scores| == |Ranking(f, ids)| && forall k :: 0 <= k < |scores| ==> scores[k] == Named(Ranking(f, ids)[k], stale)
    ensures scores == Ranking(g, ids)
  {
    hide Ranking, Better, Named;
    var ranked := Ranking(f, ids);
    RankingHolds(f, ids);
    RankingHolds(g, ids);
    NamedArranged(ranked, scores, stale);
    forall s
      ensures s in scores <==> s in Ranking(g, ids)
    {
      if s in scores {
        var i :| 0 <= i < |scores| && scores[i] == s;
        assert ranked[i] in ranked;
      }
      if id :| id in ids && s == g(id) {
        assert f(id) in ranked;
        var i :| 0 <= i < |ranked| && ranked[i] == f(id);
        assert scores[i] == s;
      }
    }
    ArrangedOnce(scores, Ranking(g, ids));
  }

  function Named(s: Score, stale: set<string>): Score {
    if s.authID in stale then s.(reason := StaleReading) else s
  }

  // The reason a score carries plays no part in its rank.
  lemma NamedArranged(ranked: seq<Score>, scores: seq<Score>, stale: set<string>)
    requires Arranged(ranked) && |scores| == |ranked|
    requires forall k :: 0 <= k < |ranked| ==> scores[k] == Named(ranked[k], stale)
    ensures Arranged(scores)
  {
    forall i, j | 0 <= i < j < |scores|
      ensures Better(scores[i], scores[j])
    {
      assert Better(ranked[i], ranked[j]);
    }
  }

  // r is an eligible score none ranks before, or None when none is eligible.
  ghost predicate IsBest(ss: seq<Score>, r: Option<Score>) {
    match r
    case None => forall s :: s in ss ==> !s.eligible
    case Some(b) => b in ss && b.eligible && forall s :: s in ss && s.eligible ==> !Better(s, b)
  }

  method Best(ss: seq<Score>) returns (best: Option<Score>)
    ensures IsBest(ss, best)
  {
    hide Better;
    best := None;
    for i := 0 to |ss|
      invariant IsBest(ss[..i], best)
    {
      var s := ss[i];
      assert ss[..i + 1] == ss[..i] + [s];
      BetterTotal(s, s);
      if s.eligible && (best.None? || Better(s, best.value)) {
        forall x | x in ss[..i] && x.eligible
          ensures !Better(x, s)
        {
          BetterTotal(s, x);
          if Better(x, s) { BetterChain(x, s, best.value); }
        }
        best := Some(s);
      }
    }
    assert ss[..|ss|] == ss;
  }

  function Head(ss: seq<Score>): Option<Score> {
    if ss != [] && ss[0].eligible then Some(ss[0]) else None
  }

  // The best of a ranking is its head, when that is eligible.
  lemma BestIsHead(ss: seq<Score>, r: Option<Score>)
    requires Arranged(ss) && IsBest(ss, r)
    ensures r == Head(ss)
  {
    if ss != [] {
      assert ss[0] in ss;
      if r.Some? {
        var i :| 0 <= i < |ss| && ss[i] == r.value;
        assert i == 0 || Better(ss[0], ss[i]);
      }
    }
  }

  // ----- what the ranking promises, case by case

  // a and b agree up to n, where a has ended or has the lower character.
  ghost predicate PartAt(a: string, b: string, n: int) {
    0 <= n <= |a| && n < |b| && (forall k :: 0 <= k < n ==> a[k] == b[k]) && (n == |a| || a[n] < b[n])
  }

  lemma {:induction false} IdLessMeans(a: string, b: string)
    ensures IdLess(a, b) <==> exists n :: PartAt(a, b, n)
  {
    if a != "" && b != "" && a[0] == b[0] {
      IdLessMeans(a[1..], b[1..]);
      if n :| PartAt(a[1..], b[1..], n) {
        assert forall k :: 0 <= k < n + 1 ==> a[k] == if k == 0 then a[0] else a[1..][k - 1];
        assert forall k :: 0 <= k < n + 1 ==> b[k] == if k == 0 then b[0] else b[1..][k - 1];
        assert PartAt(a, b, n + 1);
      }
      if n :| PartAt(a, b, n) {
        assert PartAt(a[1..], b[1..], n - 1);
      }
    } else if IdLess(a, b) {
      assert PartAt(a, b, 0);
    }
  }

  // A cost that comes before another: the lower number, -Inf before every
  // number, +Inf after it, NaN last.
  predicate Cheaper(x: Float, y: Float) {
    match x
    case NaN => false
    case NegInf => !y.NegInf?
    case PosInf => y.NaN?
    case Fin(r) => y.NaN? || y.PosInf? || (y.Fin? && r < y.r)
  }

  // a comes before b among the credentials that can take the request: one
  // that only a session limits, then the lower cost.
  predicate Undercuts(a: Score, b: Score) {
    (a.sessionOnly && !b.sessionOnly) || (a.sessionOnly == b.sessionOnly && Cheaper(a.cost, b.cost))
  }

  // Where any two scores of a ranking stand: the eligible one first, then the
  // one that undercuts the other, then the lower id.
  lemma RankedBy(score: string -> Score, ids: seq<string>, i: nat, j: nat)
    requires NamesItsOwn(score) && i < |Ranking(score, ids)| && j < |Ranking(score, ids)|
    ensures var a, b := Ranking(score, ids)[i], Ranking(score, ids)[j];
            && (a.eligible && !b.eligible ==> i < j)
            && (a.eligible == b.eligible && Undercuts(a, b) ==> i < j)
            && (a.eligible == b.eligible && !Undercuts(a, b) && !Undercuts(b, a) && IdLess(a.authID, b.authID) ==> i < j)
  {
    hide Ranking, IdLess;
    RankingHolds(score, ids);
    var a, b := Ranking(score, ids)[i], Ranking(score, ids)[j];
    IdLessTotal(a.authID, b.authID);
    IdLessTotal(a.authID, a.authID);
    assert j < i ==> Better(b, a);
  }

  // The head of a ranking is an eligible candidate that no eligible one
  // undercuts, the lowest id of those it is level with.
  lemma HeadUndercut(score: string -> Score, ids: seq<string>, id: string)
    requires NamesItsOwn(score) && id in ids && score(id).eligible
    ensures var best := Head(Ranking(score, ids));
            && best.Some? && best.value.eligible && best.value.authID in ids && best.value == score(best.value.authID)
            && !Undercuts(score(id), best.value)
            && (Undercuts(best.value, score(id)) || id == best.value.authID || IdLess(best.value.authID, id))
  {
    hide Ranking, IdLess, Undercuts, Better;
    var ss := Ranking(score, ids);
    RankingHolds(score, ids);
    assert score(id) in ss;
    var i :| 0 <= i < |ss| && ss[i] == score(id);
    assert ss[0] in ss;
    RankedBy(score, ids, i, 0);
    IdLessTotal(id, ss[0].authID);
  }

  // ----- what a score says

  // A credential can take the family exactly when its reading is fresh and
  // carries a window that bears on it, and no such window is refused, full or
  // unreadable.
  lemma EligibleExact(cfg: PoolConfig, snaps: map<string, Snapshot>, model: string, now: int, id: string)
    ensures GatedScore(cfg, snaps, model, now, id).eligible <==>
            && id in snaps && snaps[id].observedAt.Some? && now - snaps[id].observedAt.value <= cfg.maxStaleness
            && (exists w :: w in snaps[id].windows && BearsOn(w, FamilyOf(model)))
            && (forall w :: w in snaps[id].windows && BearsOn(w, FamilyOf(model)) ==>
                  w.status != REJECTED && w.util.Fin? && w.util.r < 1.0)
  {
    hide BearsOn, FamilyOf, Cost;
    if id in snaps {
      var ws, family := snaps[id].windows, FamilyOf(model);
      assert forall i :: 0 <= i < |ws| ==> ws[i] in ws;
      assert SomeBearing(ws, family, Known) <==> exists w :: w in ws && BearsOn(w, family);
    }
  }

  // Behind the gates a credential's score is that of its reading: its cost
  // over every window, and whether only a session limits it, which headers
  // alone cannot say.
  lemma ScoreExact(cfg: PoolConfig, snaps: map<string, Snapshot>, model: string, now: int, id: string)
    requires id in snaps && snaps[id].observedAt.Some? && now - snaps[id].observedAt.value <= cfg.maxStaleness
    ensures var s, snap, family := GatedScore(cfg, snaps, model, now, id), snaps[id], FamilyOf(model);
            && s.cost == Cost(cfg.pace, snap.windows, family, s.sessionOnly, now)
            && (s.sessionOnly <==>
                  && snap.source.UsageEndpoint? && (exists w :: w in snap.windows && w.kind.Session?)
                  && forall w :: w in snap.windows && BearsOn(w, family) ==> w.kind.Session?)
  {
    hide BearsOn, FamilyOf, Cost, Verdict;
    var ws := snaps[id].windows;
    assert forall i :: 0 <= i < |ws| ==> ws[i] in ws;
  }

  function SinceOpen(w: Window, now: int): int
    requires Open(w)
  {
    Min(Max(now - (w.resetsAt.value - w.duration), 0), w.duration)
  }

  // The elapsed share of a window with a reset and a length is the time since
  // it opened, within the length, over the length.
  lemma ElapsedExact(w: Window, now: int)
    ensures if Open(w) then Elapsed(w, now) * w.duration as real == SinceOpen(w, now) as real else Elapsed(w, now) == 0.0
  {
  }

  lemma ElapsedRises(w: Window, now: int, later: int)
    requires now <= later
    ensures Elapsed(w, now) <= Elapsed(w, later)
  {
    hide Elapsed;
    ElapsedExact(w, now);
    ElapsedExact(w, later);
    if Open(w) {
      RealRises(SinceOpen(w, now), SinceOpen(w, later));
      RealRises(1, w.duration);
      ShareRises(Elapsed(w, now), Elapsed(w, later), w.duration as real);
    }
  }

  lemma RealRises(a: int, b: int)
    requires a <= b
    ensures a as real <= b as real
  {
  }

  lemma ShareRises(x: real, y: real, d: real)
    requires d > 0.0 && x * d <= y * d
    ensures x <= y
  {
    if y < x {
      Positive(x - y, d);
    }
  }

  lemma Positive(a: real, d: real)
    requires a > 0.0 && d > 0.0
    ensures a * d > 0.0
  {
  }

  ghost predicate Finite(ws: seq<Window>) { forall w :: w in ws ==> w.util.Fin? }

  lemma CostStep(cfg: PaceConfig, ws: seq<Window>, family: string, only: bool, now: int)
    requires ws != [] && Last(ws).util.Fin? && Cost(cfg, Front(ws), family, only, now).Fin?
    ensures Cost(cfg, ws, family, only, now) ==
            Fin(Cost(cfg, Front(ws), family, only, now).r
                - Weight(cfg, Last(ws), family, only) * (Target(cfg, Elapsed(Last(ws), now)) - Last(ws).util.r))
  {
    hide Weight, Target, Elapsed;
  }

  lemma {:induction false} CostFinite(cfg: PaceConfig, ws: seq<Window>, family: string, only: bool, now: int)
    requires Finite(ws)
    ensures Cost(cfg, ws, family, only, now).Fin?
  {
    hide Weight, Target, Elapsed;
    if ws != [] {
      CostFinite(cfg, Front(ws), family, only, now);
    }
  }

  // A seat with every window at its target costs nothing.
  lemma {:induction false} CostAtTarget(cfg: PaceConfig, ws: seq<Window>, family: string, only: bool, now: int)
    requires forall w :: w in ws ==> w.util == Fin(Target(cfg, Elapsed(w, now)))
    ensures Cost(cfg, ws, family, only, now) == Fin(0.0)
  {
    hide Weight, Target, Elapsed;
    if ws != [] {
      CostAtTarget(cfg, Front(ws), family, only, now);
      assert Last(ws) in ws;
    }
  }

  // Raising the utilization of one window raises the cost by its weight times
  // the rise.
  lemma {:induction false} CostRises(cfg: PaceConfig, ws: seq<Window>, family: string, only: bool, now: int, i: nat, v: real)
    requires Finite(ws) && i < |ws|
    ensures var ws' := ws[i := ws[i].(util := Fin(v))];
            && Cost(cfg, ws, family, only, now).Fin? && Cost(cfg, ws', family, only, now).Fin?
            && Cost(cfg, ws', family, only, now).r - Cost(cfg, ws, family, only, now).r == Weight(cfg, ws[i], family, only) * (v - ws[i].util.r)
  {
    hide Target, Weight, Cost, Elapsed;
    var ws', w' := ws[i := ws[i].(util := Fin(v))], ws[i].(util := Fin(v));
    WeightOther(cfg, ws[i], Fin(v), family, only, now);
    CostFinite(cfg, ws, family, only, now);
    CostFinite(cfg, Front(ws), family, only, now);
    if i < |ws| - 1 {
      CostRises(cfg, Front(ws), family, only, now, i, v);
      assert Front(ws') == Front(ws)[i := w'] && Last(ws') == Last(ws);
    } else {
      assert Front(ws') == Front(ws);
      SpreadsOver(Weight(cfg, ws[i], family, only), Target(cfg, Elapsed(ws[i], now)), ws[i].util.r, v);
    }
    CostStep(cfg, ws, family, only, now);
    CostStep(cfg, ws', family, only, now);
  }

  lemma WeightOther(cfg: PaceConfig, w: Window, u: Float, family: string, only: bool, now: int)
    ensures Weight(cfg, w.(util := u), family, only) == Weight(cfg, w, family, only)
    ensures Elapsed(w.(util := u), now) == Elapsed(w, now)
  {
  }

  lemma SpreadsOver(w: real, t: real, u: real, v: real)
    ensures w * (t - u) - w * (t - v) == w * (v - u)
  {
  }

  ghost predicate Rising(cfg: PaceConfig) {
    && cfg.landing >= 0.0 && cfg.shape(0.0) == 0.0 && cfg.shape(1.0) == 1.0
    && forall a: real, b: real :: 0.0 <= a <= b <= 1.0 ==> cfg.shape(a) <= cfg.shape(b)
  }

  // On a rising shape a seat that is not used costs less and less.
  lemma {:induction false} CostFalls(cfg: PaceConfig, ws: seq<Window>, family: string, only: bool, now: int, later: int)
    requires Finite(ws) && now <= later && Rising(cfg)
    requires cfg.weeklyWeight >= 0.0 && cfg.sessionWeight >= 0.0 && cfg.scopedWeight >= 0.0
    ensures Cost(cfg, ws, family, only, now).Fin? && Cost(cfg, ws, family, only, later).Fin?
    ensures Cost(cfg, ws, family, only, later).r <= Cost(cfg, ws, family, only, now).r
  {
    hide Target, Elapsed, Weight, Rising, Cost;
    if ws == [] {
      CostAtTarget(cfg, ws, family, only, now);
      CostAtTarget(cfg, ws, family, only, later);
    } else {
      var w := Last(ws);
      CostFalls(cfg, Front(ws), family, only, now, later);
      CostStep(cfg, ws, family, only, now);
      CostStep(cfg, ws, family, only, later);
      TermFalls(cfg, w, family, only, now, later);
    }
  }

  lemma TermFalls(cfg: PaceConfig, w: Window, family: string, only: bool, now: int, later: int)
    requires w.util.Fin? && now <= later && Rising(cfg)
    requires cfg.weeklyWeight >= 0.0 && cfg.sessionWeight >= 0.0 && cfg.scopedWeight >= 0.0
    ensures Weight(cfg, w, family, only) * (Target(cfg, Elapsed(w, now)) - w.util.r) <=
            Weight(cfg, w, family, only) * (Target(cfg, Elapsed(w, later)) - w.util.r)
  {
    hide Target, Elapsed, BearsOn;
    ElapsedRises(w, now, later);
    TargetRises(cfg, Elapsed(w, now), Elapsed(w, later));
    ScaleRises(Weight(cfg, w, family, only), Target(cfg, Elapsed(w, now)) - w.util.r, Target(cfg, Elapsed(w, later)) - w.util.r);
  }

  // Between its ends the target is the landing share of the shape until that
  // is full, and past them what it is there.
  lemma TargetExact(cfg: PaceConfig, x: real)
    ensures x < 0.0 ==> Target(cfg, x) == Target(cfg, 0.0)
    ensures x > 1.0 ==> Target(cfg, x) == Target(cfg, 1.0)
    ensures 0.0 <= x <= 1.0 ==>
              && (cfg.landing * cfg.shape(x) <= 1.0 ==> Target(cfg, x) == cfg.landing * cfg.shape(x))
              && (cfg.landing * cfg.shape(x) >= 1.0 ==> Target(cfg, x) == 1.0)
  {
  }

  // What a rise of one window's utilization costs: nothing in a window with no
  // reset or length, or one that does not bear on the family.
  lemma CostRate(cfg: PaceConfig, ws: seq<Window>, family: string, only: bool, now: int, i: nat, v: real)
    requires Finite(ws) && i < |ws|
    ensures var w := ws[i];
            var bears := w.resetsAt.Some? && w.duration > 0;
            var rate := match w.kind
                        case Session => if !bears then 0.0 else if only then 1.0 else cfg.sessionWeight
                        case Weekly => if bears then cfg.weeklyWeight else 0.0
                        case WeeklyScoped => if bears && family != "" && FamilyOf(w.scope) == family then cfg.scopedWeight else 0.0
                        case OtherKind(_) => 0.0;
            && Cost(cfg, ws, family, only, now).Fin? && Cost(cfg, ws[i := w.(util := Fin(v))], family, only, now).Fin?
            && Cost(cfg, ws[i := w.(util := Fin(v))], family, only, now).r == Cost(cfg, ws, family, only, now).r + rate * (v - w.util.r)
  {
    hide Cost, FamilyOf;
    CostRises(cfg, ws, family, only, now, i, v);
  }

  // ----- families

  ghost predicate OccursAt(s: string, t: string, i: int) { 0 <= i <= |s| - |t| && s[i..i + |t|] == t }

  lemma {:induction false} ContainsMeans(s: string, t: string)
    ensures Contains(s, t) <==> exists i :: OccursAt(s, t, i)
  {
    if |t| <= |s| {
      if s[..|t|] == t {
        assert OccursAt(s, t, 0);
      } else if s != [] {
        ContainsMeans(s[1..], t);
        if i :| OccursAt(s[1..], t, i) {
          assert OccursAt(s, t, i + 1);
        }
        if i :| OccursAt(s, t, i) {
          assert i > 0 && OccursAt(s[1..], t, i - 1);
        }
      }
    }
  }

  // A model or scope belongs to the first family in the list that it names,
  // whatever the case, and to none when it names none.
  lemma FamilyExact(s: string)
    ensures FamilyOf(s) == "" <==> forall f :: f in FAMILIES ==> !Contains(Lower(s), Lower(f))
    ensures FamilyOf(s) != "" ==>
              exists i :: && 0 <= i < |FAMILIES| && FamilyOf(s) == FAMILIES[i] && Contains(Lower(s), Lower(FAMILIES[i]))
                          && forall j :: 0 <= j < i ==> !Contains(Lower(s), Lower(FAMILIES[j]))
  {
    hide Contains, Lower;
    FamilyFromExact(s, 0);
  }

  lemma {:induction false} FamilyFromExact(s: string, i: nat)
    requires i <= |FAMILIES|
    ensures FamilyFrom(s, i) == "" ==> forall j :: i <= j < |FAMILIES| ==> !Contains(Lower(s), Lower(FAMILIES[j]))
    ensures FamilyFrom(s, i) != "" ==>
              exists k :: && i <= k < |FAMILIES| && FamilyFrom(s, i) == FAMILIES[k] && Contains(Lower(s), Lower(FAMILIES[k]))
                          && forall j :: i <= j < k ==> !Contains(Lower(s), Lower(FAMILIES[j]))
    decreases |FAMILIES| - i
  {
    hide Contains, Lower;
    if i < |FAMILIES| {
      FamilyFromExact(s, i + 1);
    }
  }
}
