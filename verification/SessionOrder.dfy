/** What the access order promises: when the sweep's and the count's early
    stops miss nothing, over single tables and over whole runs, and what a
    restore keeps. */
module SessionOrder {
  import opened Basics
  import opened SessionTable

  function Seen(order: seq<Filed>, i: nat): int
    requires i < |order|
  {
    order[i].binding.lastSeen
  }

  // Bindings nearer the back are newer by at most d than those ahead of them.
  ghost predicate InStep(order: seq<Filed>, d: int) {
    forall i, j :: 0 <= i < j < |order| ==> Seen(order, j) <= Seen(order, i) + d
  }

  ghost predicate SeenBy(order: seq<Filed>, now: int) {
    forall i :: 0 <= i < |order| ==> Seen(order, i) <= now
  }

  // The bindings within the TTL, in their order: what a full scan keeps.
  function Live(order: seq<Filed>, ttl: int, now: int): (out: seq<Filed>)
    ensures |out| <= |order|
  {
    if order == [] then []
    else Live(Front(order), ttl, now) + if Expired(ttl, Last(order).binding, now) then [] else [Last(order)]
  }

  lemma {:induction false} LiveAll(order: seq<Filed>, ttl: int, now: int)
    requires forall i :: 0 <= i < |order| ==> !Expired(ttl, order[i].binding, now)
    ensures Live(order, ttl, now) == order
  {
    hide Expired;
    if order != [] {
      LiveAll(Front(order), ttl, now);
      assert !Expired(ttl, Last(order).binding, now) && order == Front(order) + [Last(order)];
    }
  }

  lemma {:induction false} LiveShrinks(order: seq<Filed>, ttl: int, now: int, i: nat)
    requires i < |order| && Expired(ttl, order[i].binding, now)
    ensures |Live(order, ttl, now)| < |order|
  {
    if i < |order| - 1 {
      LiveShrinks(Front(order), ttl, now, i);
    }
  }

  // ----- sweep

  // Sweep removes only expired bindings.
  lemma {:induction false} SweepSound(order: seq<Filed>, ttl: int, now: int)
    ensures Live(SweepFrom(order, ttl, now), ttl, now) == Live(order, ttl, now)
  {
    if order != [] && now - Last(order).binding.lastSeen > ttl - SWEEP_SLACK {
      SweepSound(Front(order), ttl, now);
      var kept := SweepFrom(Front(order), ttl, now);
      assert Front(kept + [Last(order)]) == kept;
      assert kept + [] == kept;
    }
  }

  // The walk is past a binding that is expired or about to be.
  predicate Passes(ttl: int, b: Binding, now: int) { now - b.lastSeen > ttl - SWEEP_SLACK }

  // Sweep removes every expired binding exactly when none is ahead of one the
  // walk stops at.
  lemma {:induction false} SweepExact(order: seq<Filed>, ttl: int, now: int)
    requires ttl > 0
    ensures SweepFrom(order, ttl, now) == Live(order, ttl, now) <==>
            forall i, j :: 0 <= i < j < |order| && Expired(ttl, order[i].binding, now) ==> Passes(ttl, order[j].binding, now)
  {
    if order != [] {
      var n, p, last := |order|, Front(order), Last(order);
      if !Passes(ttl, last.binding, now) {
        if i :| 0 <= i < n && Expired(ttl, order[i].binding, now) {
          LiveShrinks(order, ttl, now, i);
          assert i < n - 1 && order[n - 1] == last;
        } else {
          LiveAll(order, ttl, now);
        }
      } else {
        SweepExact(p, ttl, now);
        assert forall i :: 0 <= i < n - 1 ==> p[i] == order[i];
        var s, l := SweepFrom(p, ttl, now), Live(p, ttl, now);
        assert s + [last] == l + [last] ==> s == (s + [last])[..|s|] && l == (l + [last])[..|l|] && |s| == |l|;
        assert s + [] == s && l + [] == l;
      }
    }
  }

  lemma SweepComplete(order: seq<Filed>, ttl: int, now: int)
    requires ttl > 0 && InStep(order, SWEEP_SLACK)
    ensures SweepFrom(order, ttl, now) == Live(order, ttl, now)
  {
    SweepExact(order, ttl, now);
    forall i, j | 0 <= i < j < |order| && Expired(ttl, order[i].binding, now)
      ensures Passes(ttl, order[j].binding, now)
    {
      assert Seen(order, j) <= Seen(order, i) + SWEEP_SLACK;
    }
  }

  // ----- the count

  lemma {:induction false} CountSnoc(order: seq<Filed>, e: Filed, authID: string)
    ensures Count(order + [e], authID) == Count(order, authID) + if e.binding.authID == authID then 1 else 0
  {
    if order != [] {
      assert (order + [e])[1..] == order[1..] + [e];
      CountSnoc(order[1..], e, authID);
    } else {
      assert [e][1..] == [];
    }
  }

  lemma {:induction false} CountLive(order: seq<Filed>, ttl: int, now: int, authID: string)
    ensures Count(Live(order, ttl, now), authID) <= Count(order, authID)
  {
    if order != [] {
      CountLive(Front(order), ttl, now, authID);
      CountSnoc(Front(order), Last(order), authID);
      CountSnoc(Live(Front(order), ttl, now), Last(order), authID);
      assert Front(order) + [Last(order)] == order;
      assert Live(Front(order), ttl, now) + [] == Live(Front(order), ttl, now);
    }
  }

  // An expired binding left in is counted too often.
  lemma {:induction false} CountsExpired(order: seq<Filed>, ttl: int, now: int, i: nat)
    requires i < |order| && Expired(ttl, order[i].binding, now)
    ensures Count(Live(order, ttl, now), order[i].binding.authID) < Count(order, order[i].binding.authID)
  {
    var a, p, last := order[i].binding.authID, Front(order), Last(order);
    CountLive(p, ttl, now, a);
    CountSnoc(p, last, a);
    CountSnoc(Live(p, ttl, now), last, a);
    assert p + [last] == order;
    assert Live(p, ttl, now) + [] == Live(p, ttl, now);
    if i < |order| - 1 {
      CountsExpired(p, ttl, now, i);
    }
  }

  lemma {:induction false} UnexpiredLive(order: seq<Filed>, ttl: int, now: int)
    ensures Live(Unexpired(order, ttl, now), ttl, now) == Live(order, ttl, now)
    ensures |Unexpired(order, ttl, now)| <= |order| && Unexpired(order, ttl, now) == order[..|Unexpired(order, ttl, now)|]
    ensures var n := |Unexpired(order, ttl, now)|;
            (n > 0 ==> !Expired(ttl, order[n - 1].binding, now)) && forall i :: n <= i < |order| ==> Expired(ttl, order[i].binding, now)
  {
    if order != [] && Expired(ttl, Last(order).binding, now) {
      UnexpiredLive(Front(order), ttl, now);
      assert Live(Front(order), ttl, now) + [] == Live(Front(order), ttl, now);
    }
  }

  // Counting short of the expired tail agrees with counting every unexpired
  // binding, for every credential, exactly when no expired binding is ahead of
  // an unexpired one.
  lemma CountExact(order: seq<Filed>, ttl: int, now: int)
    ensures (forall a :: Count(Unexpired(order, ttl, now), a) == Count(Live(order, ttl, now), a)) <==>
            (forall i, j :: 0 <= i < j < |order| && Expired(ttl, order[i].binding, now) ==> Expired(ttl, order[j].binding, now))
  {
    var head := Unexpired(order, ttl, now);
    UnexpiredLive(order, ttl, now);
    if i :| 0 <= i < |head| && Expired(ttl, head[i].binding, now) {
      CountsExpired(head, ttl, now, i);
      assert i < |head| - 1 && order[i] == head[i];
    } else {
      LiveAll(head, ttl, now);
      assert forall i :: 0 <= i < |head| ==> order[i] == head[i];
    }
  }

  lemma CountAgrees(order: seq<Filed>, ttl: int, now: int, authID: string)
    requires InStep(order, 0)
    ensures Count(Unexpired(order, ttl, now), authID) == Count(Live(order, ttl, now), authID)
  {
    CountExact(order, ttl, now);
    forall i, j | 0 <= i < j < |order| && Expired(ttl, order[i].binding, now)
      ensures Expired(ttl, order[j].binding, now)
    {
      assert Seen(order, j) <= Seen(order, i);
    }
  }

  // The places of a credential's unexpired bindings.
  ghost function PlacesOf(order: seq<Filed>, ttl: int, now: int, authID: string): set<int> {
    set i | 0 <= i < |order| && order[i].binding.authID == authID && !(ttl > 0 && order[i].binding.lastSeen + ttl < now)
  }

  lemma PlacesNext(order: seq<Filed>, ttl: int, now: int, authID: string)
    requires order != []
    ensures var last := Last(order).binding;
            PlacesOf(order, ttl, now, authID) ==
            PlacesOf(Front(order), ttl, now, authID) + (if last.authID == authID && !Expired(ttl, last, now) then {|order| - 1} else {})
  {
  }

  lemma {:induction false} LiveCounted(order: seq<Filed>, ttl: int, now: int, authID: string)
    ensures Count(Live(order, ttl, now), authID) == |PlacesOf(order, ttl, now, authID)|
  {
    hide Expired;
    if order == [] {
      assert PlacesOf(order, ttl, now, authID) == {};
    } else {
      var p, last := Front(order), Last(order);
      LiveCounted(p, ttl, now, authID);
      PlacesNext(order, ttl, now, authID);
      CountSnoc(Live(p, ttl, now), last, authID);
      assert Live(p, ttl, now) + [] == Live(p, ttl, now);
      assert |order| - 1 !in PlacesOf(p, ttl, now, authID);
    }
  }

  // ----- restore

  ghost predicate Newest(bs: seq<Binding>) {
    forall i, j :: 0 <= i < j < |bs| ==> bs[i].lastSeen >= bs[j].lastSeen
  }

  lemma {:induction false} InsertKeeps(b: Binding, bs: seq<Binding>)
    ensures multiset(InsertSeen(b, bs)) == multiset([b] + bs)
    ensures forall x :: x in InsertSeen(b, bs) ==> x == b || x in bs
  {
    if bs != [] && b.lastSeen < bs[0].lastSeen {
      InsertKeeps(b, bs[1..]);
      assert bs == [bs[0]] + bs[1..];
    }
  }

  lemma {:induction false} InsertNewest(b: Binding, bs: seq<Binding>)
    requires Newest(bs)
    ensures Newest(InsertSeen(b, bs))
  {
    if bs != [] && b.lastSeen < bs[0].lastSeen {
      InsertNewest(b, bs[1..]);
      InsertKeeps(b, bs[1..]);
      NewestCons(bs[0], InsertSeen(b, bs[1..]));
    }
  }

  lemma NewestCons(b: Binding, bs: seq<Binding>)
    requires Newest(bs) && forall x :: x in bs ==> x.lastSeen <= b.lastSeen
    ensures Newest([b] + bs)
  {
  }

  lemma {:induction false} SortedNewest(bs: seq<Binding>)
    ensures Newest(SortSeen(bs)) && multiset(SortSeen(bs)) == multiset(bs)
  {
    if bs != [] {
      SortedNewest(bs[1..]);
      InsertNewest(bs[0], SortSeen(bs[1..]));
      InsertKeeps(bs[0], SortSeen(bs[1..]));
      assert bs == [bs[0]] + bs[1..];
    }
  }

  // tail files some of bs, in their order.
  ghost predicate FiledFrom(idx: seq<nat>, tail: seq<Filed>, bs: seq<Binding>, ttl: int, now: int) {
    && |idx| == |tail|
    && (forall k :: 0 <= k < |tail| ==> idx[k] < |bs| && tail[k] == File(bs[idx[k]]) && Restorable(bs[idx[k]], ttl, now))
    && (forall k, l :: 0 <= k < l < |tail| ==> idx[k] < idx[l])
  }

  lemma FiledFromCons(idx: seq<nat>, tail: seq<Filed>, bs: seq<Binding>, ttl: int, now: int)
    requires bs != [] && FiledFrom(idx, tail, bs[1..], ttl, now)
    ensures FiledFrom(Shift(idx), tail, bs, ttl, now)
    ensures Restorable(bs[0], ttl, now) ==> FiledFrom([0] + Shift(idx), [File(bs[0])] + tail, bs, ttl, now)
  {
    hide File, Restorable;
  }

  // Where filing the first binding leaves the order, and the rest go on.
  function FileFirst(order: seq<Filed>, b: Binding, ttl: int, now: int): seq<Filed> {
    if Restorable(b, ttl, now) && Find(order, File(b).index).None? then order + [File(b)] else order
  }

  lemma FileAllFirst(order: seq<Filed>, bs: seq<Binding>, ttl: int, now: int)
    requires bs != []
    ensures FileAll(order, bs, ttl, now) == FileAll(FileFirst(order, bs[0], ttl, now), bs[1..], ttl, now)
  {
    hide Find, Restorable, File;
  }

  lemma PrefixTail(all: seq<Filed>, order: seq<Filed>, e: Filed)
    requires |order| < |all| && all[..|order| + 1] == order + [e]
    ensures all[..|order|] == order && all[|order|..] == [e] + all[|order| + 1..]
  {
    assert all[..|order|] == all[..|order| + 1][..|order|];
    assert all[|order|] == all[..|order| + 1][|order|];
  }

  // Filing leaves the held bindings in front and adds some of bs behind them,
  // in their order.
  lemma {:induction false} FileAllAppends(order: seq<Filed>, bs: seq<Binding>, ttl: int, now: int) returns (idx: seq<nat>)
    ensures var all := FileAll(order, bs, ttl, now);
            |order| <= |all| && all[..|order|] == order && FiledFrom(idx, all[|order|..], bs, ttl, now)
    decreases |bs|
  {
    hide FileAll, FiledFrom, File, Restorable, Find;
    var all := FileAll(order, bs, ttl, now);
    if bs == [] {
      idx := [];
      FileAllNone(order, ttl, now);
    } else {
      var order' := FileFirst(order, bs[0], ttl, now);
      FileAllFirst(order, bs, ttl, now);
      var rest := FileAllAppends(order', bs[1..], ttl, now);
      FiledFromCons(rest, all[|order'|..], bs, ttl, now);
      if order' == order {
        idx := Shift(rest);
      } else {
        idx := [0] + Shift(rest);
        PrefixTail(all, order, File(bs[0]));
      }
    }
  }

  lemma FileAllNone(order: seq<Filed>, ttl: int, now: int)
    ensures FileAll(order, [], ttl, now) == order && FiledFrom([], order[|order|..], [], ttl, now)
  {
  }

  lemma {:induction false} FileAllShaped(order: seq<Filed>, bs: seq<Binding>, ttl: int, now: int)
    requires Shaped(order)
    ensures Shaped(FileAll(order, bs, ttl, now))
    decreases |bs|
  {
    if bs != [] {
      FileAllShaped(if Restorable(bs[0], ttl, now) && Find(order, File(bs[0]).index).None? then order + [File(bs[0])] else order,
                    bs[1..], ttl, now);
    }
  }

  // Every restorable binding's conversation is bound once filed: by the held
  // binding, or by the newest saved one.
  lemma {:induction false} FileAllCovers(order: seq<Filed>, bs: seq<Binding>, ttl: int, now: int, i: nat) returns (j: nat)
    requires Newest(bs) && i < |bs| && Restorable(bs[i], ttl, now)
    ensures var all := FileAll(order, bs, ttl, now);
            j < |all| && all[j].index == File(bs[i]).index && (j < |order| || Seen(all, j) >= bs[i].lastSeen)
    decreases |bs|
  {
    hide IndexKey, Restorable;
    var e := File(bs[0]);
    var taken := Restorable(bs[0], ttl, now) && Find(order, e.index).None?;
    var order' := if taken then order + [e] else order;
    var all := FileAll(order, bs, ttl, now);
    var idx := FileAllAppends(order', bs[1..], ttl, now);
    assert forall k :: 0 <= k < |order'| ==> all[k] == all[..|order'|][k] == order'[k];
    if i == 0 {
      j := if taken then |order| else Find(order, e.index).value;
      assert all[j] == order'[j];
    } else {
      j := FileAllCovers(order', bs[1..], ttl, now, i - 1);
      if |order| <= j < |order'| {
        assert all[j] == order'[j] == e && bs[0].lastSeen >= bs[i].lastSeen;
      }
    }
  }

  lemma RestorableMeans(b: Binding, ttl: int, now: int)
    ensures Restorable(b, ttl, now) <==>
            b.sessionKey != "" && b.authID != "" && b.lastSeen <= now && (ttl <= 0 || now - b.lastSeen <= ttl)
  {
  }

  // Restore keeps every held binding where it was, files the restored ones
  // behind them, most recently seen first, and reports how many of those the
  // cap left in the table.
  lemma RestoreKeeps(t: Table, saved: seq<Binding>, now: int)
    requires TableOk(t)
    ensures var (t', n) := Restore(t, saved, now);
            && TableOk(t') && n == |t'.order| - |t.order| >= 0 && t'.order[..|t.order|] == t.order
            && InStep(t'.order[|t.order|..], 0)
            && (forall k :: |t.order| <= k < |t'.order| ==>
                  var b := t'.order[k].binding;
                  && b in saved && b.sessionKey != "" && b.authID != ""
                  && b.lastSeen <= now && (t.ttl <= 0 || now - b.lastSeen <= t.ttl))
  {
    hide Restorable, SortSeen, FileAll, Shaped;
    var sorted := SortSeen(saved);
    SortedNewest(saved);
    var idx := FileAllAppends(t.order, sorted, t.ttl, now);
    FileAllShaped(t.order, sorted, t.ttl, now);
    var all, held := FileAll(t.order, sorted, t.ttl, now), |t.order|;
    CappedOk(all, t.max);
    var kept := Capped(all, t.max);
    var tail := all[held..];
    assert kept[..held] == all[..held];
    assert forall k :: 0 <= k < |kept[held..]| ==> kept[held..][k] == tail[k];
    forall k | held <= k < |kept|
      ensures var b := kept[k].binding;
              && b in saved && b.sessionKey != "" && b.authID != ""
              && b.lastSeen <= now && (t.ttl <= 0 || now - b.lastSeen <= t.ttl)
    {
      RestorableMeans(kept[k].binding, t.ttl, now);
      assert kept[k] == tail[k - held];
      assert kept[k].binding in multiset(sorted);
    }
  }

  // A saved binding that names its conversation and credential, was seen by
  // now and is not idle past the TTL has its conversation bound after a
  // restore, by the held binding or one seen no earlier; or the cap is reached
  // with none restored that was seen before it.
  lemma RestoreCovers(t: Table, saved: seq<Binding>, now: int, b: Binding) returns (j: int)
    requires TableOk(t) && b in saved
    requires b.sessionKey != "" && b.authID != "" && b.lastSeen <= now && (t.ttl <= 0 || now - b.lastSeen <= t.ttl)
    ensures var order := Restore(t, saved, now).0.order;
            || (0 <= j < |order| && order[j].index == File(b).index && (j < |t.order| || Seen(order, j) >= b.lastSeen))
            || (|order| == t.max && forall k :: |t.order| <= k < |order| ==> Seen(order, k) >= b.lastSeen)
  {
    hide Restorable, SortSeen, FileAll, Shaped, File;
    var sorted, held := SortSeen(saved), |t.order|;
    SortedNewest(saved);
    assert b in multiset(sorted);
    RestorableMeans(b, t.ttl, now);
    var i :| 0 <= i < |sorted| && sorted[i] == b;
    var all := FileAll(t.order, sorted, t.ttl, now);
    var kept := Capped(all, t.max);
    j := FileAllCovers(t.order, sorted, t.ttl, now, i);
    if j >= |kept| {
      var idx := FileAllAppends(t.order, sorted, t.ttl, now);
      forall k | held <= k < |kept|
        ensures Seen(kept, k) >= b.lastSeen
      {
        TailNewest(idx, all, held, sorted, t.ttl, now, k, j);
      }
    }
  }

  lemma TailNewest(idx: seq<nat>, all: seq<Filed>, held: nat, sorted: seq<Binding>, ttl: int, now: int, k: nat, j: nat)
    requires held <= k < j < |all| && Newest(sorted) && FiledFrom(idx, all[held..], sorted, ttl, now)
    ensures Seen(all, k) >= Seen(all, j)
  {
    hide Restorable, IndexKey;
    assert all[held..][k - held] == all[k] && all[held..][j - held] == all[j];
  }

  // ----- runs

  // What picks, drops and polls do to the table.
  datatype Op =
    | OpLookup(provider: string, model: string, sessionKey: string)
    | OpBind(provider: string, model: string, sessionKey: string, authID: string)
    | OpDrop(authID: string)
    | OpSweep

  function Do(t: Table, op: Op, now: int): Table {
    match op
    case OpLookup(p, m, k) => Lookup(t, p, m, k, now).0
    case OpBind(p, m, k, a) => Bind(t, p, m, k, a, now).0
    case OpDrop(a) => DropAuth(t, a).0
    case OpSweep => Sweep(t, now).0
  }

  lemma StepPicked(part: seq<Filed>, order: seq<Filed>, idx: seq<nat>, d: int, now: int)
    requires Picks(idx, part, order) && InStep(order, d) && SeenBy(order, now)
    ensures InStep(part, d) && SeenBy(part, now)
  {
    forall i, j | 0 <= i < j < |part|
      ensures Seen(part, j) <= Seen(part, i) + d
    {
      assert Seen(order, idx[j]) <= Seen(order, idx[i]) + d;
    }
    forall i | 0 <= i < |part|
      ensures Seen(part, i) <= now
    {
      assert Seen(order, idx[i]) <= now;
    }
  }

  lemma StepFront(order: seq<Filed>, e: Filed, d: int, commit: int)
    requires InStep(order, d) && SeenBy(order, commit) && commit - d <= e.binding.lastSeen <= commit
    ensures InStep([e] + order, d) && SeenBy([e] + order, commit)
  {
    var all := [e] + order;
    forall i, j | 0 <= i < j < |all|
      ensures Seen(all, j) <= Seen(all, i) + d
    {
      assert Seen(all, j) == Seen(order, j - 1) <= commit;
      assert i > 0 ==> Seen(all, i) == Seen(order, i - 1);
    }
    forall i | 0 <= i < |all|
      ensures Seen(all, i) <= commit
    {
      assert i > 0 ==> Seen(all, i) == Seen(order, i - 1);
    }
  }

  lemma AllPicked(order: seq<Filed>) returns (idx: seq<nat>)
    ensures Picks(idx, order, order)
  {
    idx := seq(|order|, i => i);
  }

  lemma PicksBack(idx: seq<nat>, part: seq<Filed>, order: seq<Filed>)
    requires order != [] && Picks(idx, part, Front(order))
    ensures Picks(idx, part, order) && Picks(idx + [|order| - 1], part + [Last(order)], order)
  {
  }

  lemma {:induction false} SweepPicks(order: seq<Filed>, ttl: int, now: int) returns (idx: seq<nat>)
    ensures Picks(idx, SweepFrom(order, ttl, now), order)
  {
    hide Expired, Picks;
    if order == [] || !Passes(ttl, Last(order).binding, now) {
      idx := AllPicked(order);
    } else {
      var kept := SweepFrom(Front(order), ttl, now);
      idx := SweepPicks(Front(order), ttl, now);
      PicksBack(idx, kept, order);
      assert kept + [] == kept;
      if !Expired(ttl, Last(order).binding, now) {
        idx := idx + [|order| - 1];
      }
    }
  }

  // One operation, stamped by a clock read up to d before it took the lock at
  // commit, keeps the access order in step to within d.
  lemma DoInStep(t: Table, op: Op, now: int, d: nat, commit: int)
    requires InStep(t.order, d) && SeenBy(t.order, commit) && commit - d <= now <= commit
    ensures InStep(Do(t, op, now).order, d) && SeenBy(Do(t, op, now).order, commit)
  {
    hide InStep, SeenBy, Seen, IndexKey, Without, Capped, Expired, KeepOthers, SweepFrom;
    var idx;
    match op
    case OpLookup(p, m, k) =>
      var at := Find(t.order, IndexKey(p, m, k));
      if at.Some? {
        var e := t.order[at.value];
        idx := WithoutPicks(t.order, at.value);
        StepPicked(Without(t.order, at.value), t.order, idx, d, commit);
        StepFront(Without(t.order, at.value), Filed(e.index, e.binding.(lastSeen := now, hits := e.binding.hits + 1)), d, commit);
      }
    case OpBind(p, m, k, a) =>
      var key := IndexKey(p, m, k);
      var at := Find(t.order, key);
      var rest := if at.Some? then Without(t.order, at.value) else t.order;
      if at.Some? {
        idx := WithoutPicks(t.order, at.value);
        StepPicked(rest, t.order, idx, d, commit);
        StepFront(rest, Filed(key, t.order[at.value].binding.(lastSeen := now)), d, commit);
      }
      var full := [Filed(key, Binding(k, p, m, a, now, now, 0))] + rest;
      StepFront(rest, full[0], d, commit);
      idx := CappedPicks(full, t.max);
      StepPicked(Capped(full, t.max), full, idx, d, commit);
    case OpDrop(a) =>
      idx := KeepPicks(t.order, a);
      StepPicked(DropAuth(t, a).0.order, t.order, idx, d, commit);
    case OpSweep =>
      idx := SweepPicks(t.order, t.ttl, now);
      StepPicked(SweepFrom(t.order, t.ttl, now), t.order, idx, d, commit);
  }

  lemma CappedPicks(order: seq<Filed>, max: int) returns (idx: seq<nat>)
    ensures Picks(idx, Capped(order, max), order)
  {
    idx := seq(|Capped(order, max)|, i => i);
  }

  // A run of a table that starts with what a restore at `start` filed, each
  // operation read its clock at stamps[i] and took the lock at commits[i].
  datatype Run = Run(tables: seq<Table>, ops: seq<Op>, stamps: seq<int>, commits: seq<int>)

  ghost predicate Runs(run: Run, ttl: int, max: int, saved: seq<Binding>, start: int) {
    && |run.tables| == |run.ops| + 1 && |run.stamps| == |run.commits| == |run.ops|
    && run.tables[0] == Restore(Table(ttl, max, []), saved, start).0
    && (forall i :: 0 <= i < |run.ops| ==> run.tables[i + 1] == Do(run.tables[i], run.ops[i], run.stamps[i]))
  }

  // Locks are taken one after another, at most d after the clock was read.
  ghost predicate Clocked(run: Run, start: int, d: nat) {
    && |run.stamps| == |run.commits|
    && (forall i :: 0 <= i < |run.commits| ==> start <= run.commits[i] && run.commits[i] - d <= run.stamps[i] <= run.commits[i])
    && (forall i, j :: 0 <= i < j < |run.commits| ==> run.commits[i] <= run.commits[j])
  }

  lemma {:induction false} RunInStep(run: Run, ttl: int, max: int, saved: seq<Binding>, start: int, d: nat, n: nat)
    requires Runs(run, ttl, max, saved, start) && Clocked(run, start, d) && n <= |run.ops|
    ensures run.tables[n].ttl == ttl && InStep(run.tables[n].order, d)
    ensures SeenBy(run.tables[n].order, if n == 0 then start else run.commits[n - 1])
  {
    hide Do, Restore;
    if n == 0 {
      RestoredInStep(Table(ttl, max, []), saved, start);
    } else {
      RunInStep(run, ttl, max, saved, start, d, n - 1);
      DoInStep(run.tables[n - 1], run.ops[n - 1], run.stamps[n - 1], d, run.commits[n - 1]);
      DoKeepsTTL(run.tables[n - 1], run.ops[n - 1], run.stamps[n - 1]);
    }
  }

  lemma DoKeepsTTL(t: Table, op: Op, now: int)
    ensures Do(t, op, now).ttl == t.ttl
  {
  }

  lemma RestoredInStep(t: Table, saved: seq<Binding>, start: int)
    requires t.order == []
    ensures var order := Restore(t, saved, start).0.order;
            InStep(order, 0) && SeenBy(order, start)
    ensures Restore(t, saved, start).0.ttl == t.ttl
  {
    var t' := Restore(t, saved, start).0;
    RestoreKeeps(t, saved, start);
    assert t'.order[0..] == t'.order;
  }

  lemma DoOk(t: Table, op: Op, now: int)
    requires TableOk(t)
    ensures TableOk(Do(t, op, now)) && Do(t, op, now).max == t.max
  {
    hide Shaped, IndexKey, Capped, KeepOthers, SweepFrom;
    match op
    case OpLookup(p, m, k) => LookupOk(t, p, m, k, now);
    case OpBind(p, m, k, a) => BindOk(t, p, m, k, a, now);
    case OpDrop(a) =>
      var idx := KeepPicks(t.order, a);
      ShapedPicked(KeepOthers(t.order, a), t.order, idx);
    case OpSweep =>
      var idx := SweepPicks(t.order, t.ttl, now);
      ShapedPicked(SweepFrom(t.order, t.ttl, now), t.order, idx);
  }

  // In every run, each binding is filed once, under its own key, and a
  // positive cap is kept.
  lemma {:induction false} TableInRuns(run: Run, ttl: int, max: int, saved: seq<Binding>, start: int, n: nat)
    requires Runs(run, ttl, max, saved, start) && n <= |run.ops|
    ensures TableOk(run.tables[n]) && run.tables[n].max == max
  {
    hide Do, Restore, TableOk;
    if n == 0 {
      EmptyTable(ttl, max);
      RestoreKeeps(Table(ttl, max, []), saved, start);
      RestoreKeepsMax(Table(ttl, max, []), saved, start);
    } else {
      TableInRuns(run, ttl, max, saved, start, n - 1);
      DoOk(run.tables[n - 1], run.ops[n - 1], run.stamps[n - 1]);
    }
  }

  // So in every run the table files one map of composed keys to bindings, and
  // only that one.
  lemma OneMapInRuns(run: Run, ttl: int, max: int, saved: seq<Binding>, start: int, n: nat)
    requires Runs(run, ttl, max, saved, start) && n <= |run.ops|
    ensures forall m :: Files(run.tables[n].order, m) <==> m == MapOf(run.tables[n].order)
  {
    hide Files, Restore, Do;
    TableInRuns(run, ttl, max, saved, start, n);
    var order := run.tables[n].order;
    MapFiles(order);
    forall m | Files(order, m)
      ensures m == MapOf(order)
    {
      FilesOne(order, m, MapOf(order));
    }
  }

  lemma EmptyTable(ttl: int, max: int)
    ensures TableOk(Table(ttl, max, []))
  {
  }

  lemma RestoreKeepsMax(t: Table, saved: seq<Binding>, now: int)
    ensures Restore(t, saved, now).0.max == t.max
  {
  }

  // In every run whose clocks are read at most SWEEP_SLACK before the lock,
  // Sweep removes every expired binding and only those.
  lemma SweepInRuns(run: Run, ttl: int, max: int, saved: seq<Binding>, start: int, n: nat, now: int)
    requires ttl > 0 && Runs(run, ttl, max, saved, start) && Clocked(run, start, SWEEP_SLACK) && n <= |run.ops|
    ensures Sweep(run.tables[n], now).0.order == Live(run.tables[n].order, ttl, now)
  {
    RunInStep(run, ttl, max, saved, start, SWEEP_SLACK, n);
    SweepComplete(run.tables[n].order, ttl, now);
  }

  // In every run whose clocks do not run behind their locks, the fast count is
  // the number of unexpired bindings of each credential.
  lemma CountInRuns(run: Run, ttl: int, max: int, saved: seq<Binding>, start: int, n: nat, now: int, authID: string)
    requires Runs(run, ttl, max, saved, start) && Clocked(run, start, 0) && n <= |run.ops|
    ensures Count(Unexpired(run.tables[n].order, ttl, now), authID) == Count(Live(run.tables[n].order, ttl, now), authID)
  {
    RunInStep(run, ttl, max, saved, start, 0, n);
    CountAgrees(run.tables[n].order, ttl, now, authID);
  }
}
