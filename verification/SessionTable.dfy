/** The conversation-to-credential bindings as values: an access order, most
    recently seen first, and what each operation of internal/session/store.go
    does to it. SessionStore holds the mutable table proved against it. */
module SessionTable {
  import opened Basics

  const SWEEP_SLACK := MINUTE

  datatype Binding = Binding(sessionKey: string, provider: string, model: string, authID: string,
                             boundAt: int, lastSeen: int, hits: int)

  const NO_BINDING := Binding("", "", "", "", 0, 0, 0)

  // A binding under the composed key it is filed at.
  datatype Filed = Filed(index: string, binding: Binding)

  datatype Table = Table(ttl: int, max: int, order: seq<Filed>)

  function IndexKey(provider: string, model: string, sessionKey: string): string {
    provider + "|" + model + "|" + sessionKey
  }

  function File(b: Binding): Filed { Filed(IndexKey(b.provider, b.model, b.sessionKey), b) }

  // Every binding is filed once, under its own key.
  ghost predicate Shaped(order: seq<Filed>) {
    (forall i :: 0 <= i < |order| ==> order[i] == File(order[i].binding)) && Distinct(order)
  }

  ghost predicate TableOk(t: Table) {
    Shaped(t.order) && (t.max > 0 ==> |t.order| <= t.max)
  }

  predicate Expired(ttl: int, b: Binding, now: int) { ttl > 0 && now - b.lastSeen > ttl }

  // Where a key is filed.
  function Find(order: seq<Filed>, key: string): (r: Option<nat>)
    ensures r.Some? ==> r.value < |order| && order[r.value].index == key
    ensures r.None? ==> forall i :: 0 <= i < |order| ==> order[i].index != key
  {
    if order == [] then None
    else if order[0].index == key then Some(0)
    else
      var later := Find(order[1..], key);
      if later.Some? then Some(later.value + 1) else None
  }

  function Capped(order: seq<Filed>, max: int): seq<Filed> {
    if 0 < max < |order| then order[..max] else order
  }

  // ----- the operations

  function Lookup(t: Table, provider: string, model: string, sessionKey: string, now: int): (Table, Option<Binding>) {
    var at := Find(t.order, IndexKey(provider, model, sessionKey));
    if sessionKey == "" || at.None? then (t, None)
    else
      var e, rest := t.order[at.value], Without(t.order, at.value);
      if Expired(t.ttl, e.binding, now) then (t.(order := rest), None)
      else
        var b := e.binding.(lastSeen := now, hits := e.binding.hits + 1);
        (t.(order := [Filed(e.index, b)] + rest), Some(b))
  }

  function Bind(t: Table, provider: string, model: string, sessionKey: string, authID: string, now: int): (Table, Binding) {
    if sessionKey == "" then (t, NO_BINDING)
    else
      var key := IndexKey(provider, model, sessionKey);
      var at := Find(t.order, key);
      var rest := if at.Some? then Without(t.order, at.value) else t.order;
      if at.Some? && !Expired(t.ttl, t.order[at.value].binding, now) && t.order[at.value].binding.authID == authID then
        var b := t.order[at.value].binding.(lastSeen := now);
        (t.(order := [Filed(key, b)] + rest), b)
      else
        var b := Binding(sessionKey, provider, model, authID, now, now, 0);
        (t.(order := Capped([Filed(key, b)] + rest, t.max)), b)
  }

  function KeepOthers(order: seq<Filed>, authID: string): seq<Filed> {
    if order == [] then []
    else if order[0].binding.authID == authID then KeepOthers(order[1..], authID)
    else [order[0]] + KeepOthers(order[1..], authID)
  }

  function DropAuth(t: Table, authID: string): (Table, int) {
    var kept := KeepOthers(t.order, authID);
    (t.(order := kept), |t.order| - |kept|)
  }

  // What is left of the order once the walk from its back has stopped at the
  // first binding more than SWEEP_SLACK short of expiry.
  function SweepFrom(order: seq<Filed>, ttl: int, now: int): (out: seq<Filed>)
    ensures |out| <= |order|
  {
    if order == [] || now - Last(order).binding.lastSeen <= ttl - SWEEP_SLACK then order
    else SweepFrom(Front(order), ttl, now) + if Expired(ttl, Last(order).binding, now) then [] else [Last(order)]
  }

  function Sweep(t: Table, now: int): (Table, int) {
    if t.ttl <= 0 then (t, 0)
    else
      var kept := SweepFrom(t.order, t.ttl, now);
      (t.(order := kept), |t.order| - |kept|)
  }

  // The order short of its expired tail.
  function Unexpired(order: seq<Filed>, ttl: int, now: int): seq<Filed> {
    if order != [] && Expired(ttl, Last(order).binding, now) then Unexpired(Front(order), ttl, now) else order
  }

  function Count(order: seq<Filed>, authID: string): nat {
    if order == [] then 0 else (if order[0].binding.authID == authID then 1 else 0) + Count(order[1..], authID)
  }

  // counts holds each credential's bindings, and no credential without one.
  ghost predicate Tallies(counts: map<string, int>, order: seq<Filed>) {
    && (forall a :: a in counts ==> counts[a] == Count(order, a) && counts[a] > 0)
    && (forall a :: Count(order, a) > 0 ==> a in counts)
  }

  // ----- restore

  // The stable order by LastSeen, newest first.
  function InsertSeen(b: Binding, sorted: seq<Binding>): seq<Binding> {
    if sorted == [] || b.lastSeen >= sorted[0].lastSeen then [b] + sorted
    else [sorted[0]] + InsertSeen(b, sorted[1..])
  }

  function SortSeen(bs: seq<Binding>): seq<Binding> {
    if bs == [] then [] else InsertSeen(bs[0], SortSeen(bs[1..]))
  }

  predicate Restorable(b: Binding, ttl: int, now: int) {
    b.sessionKey != "" && b.authID != "" && b.lastSeen <= now && !Expired(ttl, b, now)
  }

  function FileAll(order: seq<Filed>, bs: seq<Binding>, ttl: int, now: int): seq<Filed>
    decreases |bs|
  {
    if bs == [] then order
    else
      var e := File(bs[0]);
      FileAll(if Restorable(bs[0], ttl, now) && Find(order, e.index).None? then order + [e] else order, bs[1..], ttl, now)
  }

  function Restore(t: Table, saved: seq<Binding>, now: int): (Table, int) {
    var all := FileAll(t.order, SortSeen(saved), t.ttl, now);
    var kept := Capped(all, t.max);
    (t.(order := kept), (|all| - |t.order|) - (|all| - |kept|))
  }

  // ----- the table refines a map from composed keys to bindings

  ghost predicate Distinct(order: seq<Filed>) {
    forall i, j :: 0 <= i < j < |order| ==> order[i].index != order[j].index
  }

  // The order files exactly the bindings of m.
  ghost predicate Files(order: seq<Filed>, m: map<string, Binding>) {
    && Distinct(order)
    && (forall i :: 0 <= i < |order| ==> order[i].index in m && m[order[i].index] == order[i].binding)
    && (forall k :: k in m ==> Find(order, k).Some?)
  }

  lemma FilesOne(order: seq<Filed>, m: map<string, Binding>, n: map<string, Binding>)
    requires Files(order, m) && Files(order, n)
    ensures m == n
  {
  }

  ghost function MapOf(order: seq<Filed>): map<string, Binding> {
    map i | 0 <= i < |order| && Find(order, order[i].index).Some? :: order[i].index := order[Find(order, order[i].index).value].binding
  }

  lemma MapFiles(order: seq<Filed>)
    requires Distinct(order)
    ensures Files(order, MapOf(order))
  {
    forall k | k in MapOf(order)
      ensures Find(order, k).Some?
    {
      var i :| 0 <= i < |order| && order[i].index == k;
    }
  }

  lemma FindFiled(order: seq<Filed>, m: map<string, Binding>, key: string)
    requires Files(order, m)
    ensures Find(order, key).Some? <==> key in m
    ensures Find(order, key).Some? ==> m[key] == order[Find(order, key).value].binding
  {
  }

  lemma FilesWithout(order: seq<Filed>, m: map<string, Binding>, i: nat)
    requires Files(order, m) && i < |order|
    ensures Files(Without(order, i), m - {order[i].index})
  {
    hide Find, Without;
    var rest, m' := Without(order, i), m - {order[i].index};
    DistinctWithout(order, i);
    assert forall k :: 0 <= k < |rest| ==> rest[k] == order[if k < i then k else k + 1];
    forall k | k in m'
      ensures Find(rest, k).Some?
    {
      var j := Find(order, k).value;
      assert rest[if j < i then j else j - 1] == order[j];
    }
  }

  lemma DistinctWithout(order: seq<Filed>, i: nat)
    requires Distinct(order) && i < |order|
    ensures Distinct(Without(order, i))
  {
  }

  lemma FilesFront(order: seq<Filed>, m: map<string, Binding>, e: Filed)
    requires Files(order, m) && e.index !in m
    ensures Files([e] + order, m[e.index := e.binding])
  {
    assert ([e] + order)[1..] == order;
  }

  // Lookup reads the map: a hit is a binding idle within the TTL, and only its
  // last-seen instant and hit count change; an expired one is dropped.
  lemma LookupRefines(t: Table, m: map<string, Binding>, provider: string, model: string, sessionKey: string, now: int)
    requires Files(t.order, m)
    ensures var key := IndexKey(provider, model, sessionKey);
            var (t', found) := Lookup(t, provider, model, sessionKey, now);
            && (found.Some? <==> sessionKey != "" && key in m && !Expired(t.ttl, m[key], now))
            && (found.Some? ==> found.value == m[key].(lastSeen := now, hits := m[key].hits + 1)
                                && Files(t'.order, m[key := found.value]) && t'.order[0].index == key)
            && (found.None? ==> Files(t'.order, if sessionKey == "" then m else m - {key}))
  {
    hide Files;
    var key := IndexKey(provider, model, sessionKey);
    var at := Find(t.order, key);
    FindFiled(t.order, m, key);
    if at.Some? {
      var b := t.order[at.value].binding.(lastSeen := now, hits := t.order[at.value].binding.hits + 1);
      FilesWithout(t.order, m, at.value);
      FilesFront(Without(t.order, at.value), m - {key}, Filed(key, b));
      assert (m - {key})[key := b] == m[key := b];
    } else {
      assert m - {key} == m;
    }
  }

  // Bind maps the key to the credential and evicts nothing but, past a
  // positive cap, the back of the access order.
  lemma BindRefines(t: Table, m: map<string, Binding>, provider: string, model: string, sessionKey: string, authID: string, now: int)
    requires Files(t.order, m) && (t.max > 0 ==> |t.order| <= t.max) && sessionKey != ""
    ensures var key := IndexKey(provider, model, sessionKey);
            var (t', b) := Bind(t, provider, model, sessionKey, authID, now);
            && t'.order != [] && t'.order[0] == Filed(key, b) && b.authID == authID && b.lastSeen == now
            && (if key in m && !Expired(t.ttl, m[key], now) && m[key].authID == authID
                then b == m[key].(lastSeen := now)
                else b == Binding(sessionKey, provider, model, authID, now, now, 0))
            && Files(t'.order, if 0 < t.max == |t.order| && key !in m then m[key := b] - {Last(t.order).index} else m[key := b])
  {
    hide Files;
    var key := IndexKey(provider, model, sessionKey);
    var (t', b) := Bind(t, provider, model, sessionKey, authID, now);
    var at := Find(t.order, key);
    FindFiled(t.order, m, key);
    if at.Some? {
      var rest := Without(t.order, at.value);
      FilesWithout(t.order, m, at.value);
      FilesFront(rest, m - {key}, Filed(key, b));
      assert (m - {key})[key := b] == m[key := b];
    } else {
      var full := [Filed(key, b)] + t.order;
      FilesFront(t.order, m, Filed(key, b));
      if 0 < t.max < |full| {
        assert Without(full, |full| - 1) == full[..t.max] && Last(full) == Last(t.order);
        FilesWithout(full, m[key := b], |full| - 1);
      }
    }
  }

  // The bindings on other credentials.
  function Others(m: map<string, Binding>, authID: string): map<string, Binding> {
    map k | k in m && m[k].authID != authID :: m[k]
  }

  lemma OthersOf(m: map<string, Binding>, authID: string, key: string)
    requires key in m
    ensures Others(m, authID) ==
            if m[key].authID == authID then Others(m - {key}, authID) else Others(m - {key}, authID)[key := m[key]]
    ensures key !in Others(m - {key}, authID)
  {
  }

  lemma {:induction false} KeptOthers(order: seq<Filed>, m: map<string, Binding>, authID: string)
    requires Files(order, m)
    ensures Files(KeepOthers(order, authID), Others(m, authID))
  {
    if order != [] {
      hide Files, Others, Find;
      FilesHead(order, m);
      var e := order[0];
      FilesWithout(order, m, 0);
      assert Without(order, 0) == order[1..];
      KeptOthers(order[1..], m - {e.index}, authID);
      OthersOf(m, authID, e.index);
      if e.binding.authID != authID {
        FilesFront(KeepOthers(order[1..], authID), Others(m - {e.index}, authID), e);
      }
    } else {
      assert m == map[];
    }
  }

  lemma {:induction false} KeptCount(order: seq<Filed>, authID: string)
    ensures |order| - |KeepOthers(order, authID)| == Count(order, authID)
  {
    if order != [] {
      KeptCount(order[1..], authID);
    }
  }

  lemma FilesHead(order: seq<Filed>, m: map<string, Binding>)
    requires Files(order, m) && order != []
    ensures order[0].index in m && m[order[0].index] == order[0].binding
  {
  }

  // Dropping a credential removes exactly its bindings, and reports how many.
  lemma DropRefines(t: Table, m: map<string, Binding>, authID: string)
    requires Files(t.order, m)
    ensures var (t', n) := DropAuth(t, authID);
            Files(t'.order, Others(m, authID)) && n == Count(t.order, authID)
  {
    hide Files;
    KeptOthers(t.order, m, authID);
    KeptCount(t.order, authID);
  }

  // ----- the table keeps its shape

  lemma ShapedPicked(part: seq<Filed>, order: seq<Filed>, idx: seq<nat>)
    requires Shaped(order) && Picks(idx, part, order)
    ensures Shaped(part) && |part| <= |order|
  {
    if part != [] {
      PicksAhead(idx, |part| - 1);
    }
  }

  lemma WithoutPicks(order: seq<Filed>, i: nat) returns (idx: seq<nat>)
    requires i < |order|
    ensures Picks(idx, Without(order, i), order)
    ensures forall k :: 0 <= k < |idx| ==> idx[k] != i
  {
    idx := seq(|order| - 1, k => if k < i then k else k + 1);
  }

  lemma {:induction false} KeepPicks(order: seq<Filed>, authID: string) returns (idx: seq<nat>)
    ensures Picks(idx, KeepOthers(order, authID), order)
  {
    if order == [] {
      idx := [];
    } else {
      var rest := KeepPicks(order[1..], authID);
      PicksCons(rest, KeepOthers(order[1..], authID), order);
      idx := if order[0].binding.authID != authID then [0] + Shift(rest) else Shift(rest);
    }
  }

  lemma ShapedFront(order: seq<Filed>, b: Binding)
    requires Shaped(order) && forall i :: 0 <= i < |order| ==> order[i].index != File(b).index
    ensures Shaped([File(b)] + order)
  {
  }

  lemma LookupOk(t: Table, provider: string, model: string, sessionKey: string, now: int)
    requires TableOk(t)
    ensures TableOk(Lookup(t, provider, model, sessionKey, now).0)
  {
    hide Without, IndexKey;
    var at := Find(t.order, IndexKey(provider, model, sessionKey));
    if at.Some? {
      var e := t.order[at.value];
      var idx := WithoutPicks(t.order, at.value);
      ShapedPicked(Without(t.order, at.value), t.order, idx);
      ShapedFront(Without(t.order, at.value), e.binding.(lastSeen := now, hits := e.binding.hits + 1));
    }
  }

  lemma BindOk(t: Table, provider: string, model: string, sessionKey: string, authID: string, now: int)
    requires TableOk(t)
    ensures TableOk(Bind(t, provider, model, sessionKey, authID, now).0)
  {
    if sessionKey != "" {
      hide Without, IndexKey, Capped;
      var key := IndexKey(provider, model, sessionKey);
      var at := Find(t.order, key);
      var rest := if at.Some? then Without(t.order, at.value) else t.order;
      if at.Some? {
        var idx := WithoutPicks(t.order, at.value);
        ShapedPicked(rest, t.order, idx);
        FiledUnder(t.order[at.value].binding, provider, model, sessionKey);
        ShapedFront(rest, t.order[at.value].binding.(lastSeen := now));
      }
      var b := Binding(sessionKey, provider, model, authID, now, now, 0);
      ShapedFront(rest, b);
      CappedOk([File(b)] + rest, t.max);
    }
  }

  lemma FiledUnder(b: Binding, provider: string, model: string, sessionKey: string)
    ensures File(b.(provider := provider, model := model, sessionKey := sessionKey)).index == IndexKey(provider, model, sessionKey)
  {
  }

  lemma CappedOk(order: seq<Filed>, max: int)
    requires Shaped(order)
    ensures Shaped(Capped(order, max)) && (max > 0 ==> |Capped(order, max)| <= max)
  {
  }
}
