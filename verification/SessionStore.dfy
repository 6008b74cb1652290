/** The binding table as the program holds it: a list of entries in access
    order, an index of the entries by key and a per-credential tally, changed
    in place and proved against SessionTable. */
module SessionStore {
  import opened Basics
  import opened SessionTable

  class Entry {
    const index: string
    var binding: Binding

    constructor (index: string, binding: Binding)
      ensures this.index == index && this.binding == binding
    {
      this.index, this.binding := index, binding;
    }
  }

  lemma {:induction false} CountWithout(order: seq<Filed>, i: nat, a: string)
    requires i < |order|
    ensures Count(Without(order, i), a) == Count(order, a) - (if order[i].binding.authID == a then 1 else 0)
  {
    if i > 0 {
      CountWithout(order[1..], i - 1, a);
      assert Without(order, i)[1..] == Without(order[1..], i - 1);
    } else {
      assert Without(order, 0) == order[1..];
    }
  }

  // Removing a binding takes one from its credential's tally, and the tally
  // away with the last.
  lemma TalliesWithout(counts: map<string, int>, order: seq<Filed>, i: nat)
    requires Tallies(counts, order) && i < |order|
    ensures var a := order[i].binding.authID;
            a in counts && Tallies(if counts[a] - 1 <= 0 then counts - {a} else counts[a := counts[a] - 1], Without(order, i))
  {
    forall a
      ensures Count(Without(order, i), a) == Count(order, a) - (if order[i].binding.authID == a then 1 else 0)
    {
      CountWithout(order, i, a);
    }
  }

  lemma WithoutLast<T>(s: seq<T>)
    requires s != []
    ensures Without(s, |s| - 1) == s[..|s| - 1]
  {
  }

  lemma WithoutAt<T>(s: seq<T>, i: nat)
    requires i < |s|
    ensures Without(s, i)[..i] == s[..i] && Without(s, i)[i..] == s[i + 1..]
  {
  }

  lemma TalliesFront(counts: map<string, int>, order: seq<Filed>, e: Filed)
    requires Tallies(counts, order)
    ensures var a := e.binding.authID;
            Tallies(counts[a := (if a in counts then counts[a] else 0) + 1], [e] + order)
  {
    assert ([e] + order)[1..] == order;
  }

  lemma TalliesBack(counts: map<string, int>, order: seq<Filed>, e: Filed)
    requires Tallies(counts, order)
    ensures var a := e.binding.authID;
            Tallies(counts[a := (if a in counts then counts[a] else 0) + 1], order + [e])
  {
    forall a
      ensures Count(order + [e], a) == Count(order, a) + if e.binding.authID == a then 1 else 0
    {
      CountBack(order, e, a);
    }
  }

  lemma {:induction false} CountBack(order: seq<Filed>, e: Filed, a: string)
    ensures Count(order + [e], a) == Count(order, a) + if e.binding.authID == a then 1 else 0
  {
    if order != [] {
      assert (order + [e])[1..] == order[1..] + [e];
      CountBack(order[1..], e, a);
    } else {
      assert [e][1..] == [];
    }
  }

  // Moving a binding to the front with its credential changes no tally.
  lemma TalliesMoved(counts: map<string, int>, order: seq<Filed>, i: nat, e: Filed)
    requires Tallies(counts, order) && i < |order| && e.binding.authID == order[i].binding.authID
    ensures Tallies(counts, [e] + Without(order, i))
  {
    assert ([e] + Without(order, i))[1..] == Without(order, i);
    forall a
      ensures Count([e] + Without(order, i), a) == Count(order, a)
    {
      CountWithout(order, i, a);
    }
  }

  lemma TalliesFronted(counts: map<string, int>, order: seq<Filed>, e: Filed)
    requires Tallies(counts, order) && order != [] && e.binding.authID == order[0].binding.authID
    ensures Tallies(counts, order[0 := e])
  {
    assert order[0 := e][1..] == order[1..];
    assert forall a :: Count(order[0 := e], a) == Count(order, a);
  }

  lemma FrontReplaced<T>(x: T, s: seq<T>, y: T)
    ensures ([x] + s)[0 := y] == [y] + s
  {
  }

  // Where a list holds an element.
  function Place(order: seq<Entry>, e: Entry): (at: nat)
    requires e in order
    ensures at < |order| && order[at] == e
  {
    if order[0] == e then 0 else 1 + Place(order[1..], e)
  }

  // The list holds one element a key, and the index each of them under its.
  ghost predicate Indexed(order: seq<Entry>, index: map<string, Entry>) {
    && |index| == |order|
    && (forall i, j :: 0 <= i < j < |order| ==> order[i].index != order[j].index)
    && (forall i :: 0 <= i < |order| ==> order[i].index in index && index[order[i].index] == order[i])
    && (forall k :: k in index ==> index[k] in order && index[k].index == k)
  }

  lemma IndexedWithout(order: seq<Entry>, index: map<string, Entry>, at: nat)
    requires Indexed(order, index) && at < |order|
    ensures Indexed(Without(order, at), index - {order[at].index})
  {
    var e, rest, left := order[at], Without(order, at), index - {order[at].index};
    assert left.Keys == index.Keys - {e.index};
    forall k | k in left
      ensures left[k] in rest && left[k].index == k
    {
      var j :| 0 <= j < |order| && order[j] == index[k];
      assert rest[if j < at then j else j - 1] == order[j];
    }
  }

  lemma IndexedFront(order: seq<Entry>, index: map<string, Entry>, e: Entry)
    requires Indexed(order, index) && e.index !in index
    ensures Indexed([e] + order, index[e.index := e])
  {
    var all, index' := [e] + order, index[e.index := e];
    forall k | k in index'
      ensures index'[k] in all
    {
      assert k != e.index ==> index[k] in order;
    }
  }

  lemma IndexedBack(order: seq<Entry>, index: map<string, Entry>, e: Entry)
    requires Indexed(order, index) && e.index !in index
    ensures Indexed(order + [e], index[e.index := e])
  {
  }

  lemma IndexedMoved(order: seq<Entry>, index: map<string, Entry>, at: nat)
    requires Indexed(order, index) && at < |order|
    ensures Indexed([order[at]] + Without(order, at), index)
  {
    hide Without;
    var e := order[at];
    IndexedWithout(order, index, at);
    Reindexed(index, e);
    hide Indexed;
    IndexedFront(Without(order, at), index - {e.index}, e);
  }

  lemma Reindexed(index: map<string, Entry>, e: Entry)
    requires e.index in index && index[e.index] == e
    ensures (index - {e.index})[e.index := e] == index && e.index !in index - {e.index}
  {
  }

  lemma IndexedFinds(order: seq<Entry>, index: map<string, Entry>, key: string)
    requires Indexed(order, index)
    ensures key in index ==> index[key] in order && index[key].index == key
    ensures key in index <==> exists i :: 0 <= i < |order| && order[i].index == key
    ensures |index| == |order|
  {
  }

  lemma FrontAlone(order: seq<Entry>, index: map<string, Entry>)
    requires Indexed(order, index) && order != []
    ensures forall i :: 0 < i < |order| ==> order[i] != order[0]
  {
    forall i | 0 < i < |order|
      ensures order[i].index != order[0].index
    {
    }
  }

  lemma OnePlace(order: seq<Entry>, index: map<string, Entry>, e: Entry)
    requires Indexed(order, index) && e in order
    ensures e.index in index
    ensures forall i :: 0 <= i < |order| && order[i].index == e.index ==> i == Place(order, e)
  {
  }

  class Store {
    const ttl: int
    const max: int
    // Front first, as a list with stable elements.
    var order: seq<Entry>
    var index: map<string, Entry>
    var counts: map<string, int>

    ghost function Contents(): (s: seq<Filed>)
      reads this, order
      ensures |s| == |order| && forall i :: 0 <= i < |s| ==> s[i] == Filed(order[i].index, order[i].binding)
    {
      seq(|order|, i requires 0 <= i < |order| reads this, order => Filed(order[i].index, order[i].binding))
    }

    // The elements whose bindings the operations may change.
    ghost function Nodes(): set<Entry>
      reads this
    {
      set e | e in order
    }

    ghost function State(): Table
      reads this, order
    {
      Table(ttl, max, Contents())
    }

    // The list, the index and the tally describe the same bindings.
    ghost predicate Valid()
      reads this, order
    {
      Indexed(order, index) && Tallies(counts, Contents())
    }

    constructor (ttl: int, max: int)
      ensures Valid() && State() == Table(ttl, max, []) && order == []
    {
      this.ttl, this.max := ttl, max;
      order, index, counts := [], map[], map[];
    }

    // An indexed element is where the table finds its key.
    lemma Found(key: string)
      requires Valid()
      ensures key in index ==> index[key] in order && index[key].index == key && Find(Contents(), key) == Some(Place(order, index[key]))
      ensures key !in index ==> Find(Contents(), key).None?
    {
      hide Indexed, Tallies;
      IndexedFinds(order, index, key);
      if key in index {
        OnePlace(order, index, index[key]);
        assert Contents()[Place(order, index[key])].index == key;
      }
    }

    // ----- list operations

    method Remove(e: Entry)
      requires Valid() && e in order
      modifies this
      ensures Valid() && order == Without(old(order), Place(old(order), e)) && Nodes() <= old(Nodes())
      ensures Contents() == Without(old(Contents()), Place(old(order), e))
    {
      hide Indexed, Tallies, Place, Without;
      var at := Place(order, e);
      ghost var was := Contents();
      IndexedWithout(order, index, at);
      TalliesWithout(counts, was, at);
      var a := e.binding.authID;
      counts := if counts[a] - 1 <= 0 then counts - {a} else counts[a := counts[a] - 1];
      index := index - {e.index};
      order := Without(order, at);
      Rearranged(Without(was, at));
    }

    // The contents follow the elements.
    lemma Rearranged(want: seq<Filed>)
      requires |want| == |order| && forall i :: 0 <= i < |order| ==> want[i] == Filed(order[i].index, order[i].binding)
      ensures Contents() == want
    {
    }

    method MoveToFront(e: Entry)
      requires Valid() && e in order
      modifies this`order
      ensures Valid() && order == [e] + Without(old(order), Place(old(order), e))
      ensures Contents() == [Filed(e.index, e.binding)] + Without(old(Contents()), Place(old(order), e))
    {
      hide Indexed, Tallies, Place, Without;
      var at := Place(order, e);
      ghost var was := Contents();
      IndexedMoved(order, index, at);
      TalliesMoved(counts, was, at, Filed(e.index, e.binding));
      order := [e] + Without(order, at);
      Rearranged([Filed(e.index, e.binding)] + Without(was, at));
    }

    method SetFront(b: Binding)
      requires Valid() && order != [] && b.authID == order[0].binding.authID
      modifies order[0]
      ensures Valid() && order[0].binding == b
      ensures Contents() == old(Contents())[0 := Filed(order[0].index, b)]
    {
      hide Indexed, Tallies;
      ghost var was := Contents();
      FrontAlone(order, index);
      TalliesFronted(counts, was, Filed(order[0].index, b));
      order[0].binding := b;
      assert Contents() == was[0 := Filed(order[0].index, b)];
    }

    // An access: the element moves to the front and its binding changes in
    // place.
    method Touch(e: Entry, b: Binding)
      requires Valid() && e in order && b.authID == e.binding.authID
      modifies this`order, e
      ensures Valid() && order == [e] + Without(old(order), Place(old(order), e))
      ensures Contents() == [Filed(e.index, b)] + Without(old(Contents()), Place(old(order), e)) && e.binding == b
    {
      hide Indexed, Tallies, Place, Without;
      MoveToFront(e);
      FrontReplaced(Filed(e.index, e.binding), Without(old(Contents()), Place(old(order), e)), Filed(e.index, b));
      SetFront(b);
    }

    method PushFront(key: string, b: Binding)
      requires Valid() && key !in index
      modifies this
      ensures Valid() && |order| == old(|order|) + 1 && order[1..] == old(order)
      ensures fresh(Nodes() - old(Nodes()))
      ensures Contents() == [Filed(key, b)] + old(Contents())
    {
      hide Indexed, Tallies;
      ghost var was, list := Contents(), order;
      var e := new Entry(key, b);
      TalliesFront(counts, was, Filed(key, b));
      IndexedFront(order, index, e);
      order := [e] + order;
      index := index[key := e];
      counts := counts[b.authID := (if b.authID in counts then counts[b.authID] else 0) + 1];
      assert forall i :: 0 < i < |order| ==> order[i] == list[i - 1];
      assert Contents() == [Filed(key, b)] + was;
    }

    method PushBack(key: string, b: Binding)
      requires Valid() && key !in index
      modifies this
      ensures Valid() && |order| == old(|order|) + 1 && order[..old(|order|)] == old(order)
      ensures fresh(Nodes() - old(Nodes()))
      ensures Contents() == old(Contents()) + [Filed(key, b)]
    {
      hide Indexed, Tallies;
      ghost var was := Contents();
      var e := new Entry(key, b);
      TalliesBack(counts, was, Filed(key, b));
      IndexedBack(order, index, e);
      order := order + [e];
      index := index[key := e];
      counts := counts[b.authID := (if b.authID in counts then counts[b.authID] else 0) + 1];
      assert Contents() == was + [Filed(key, b)];
    }

    // The least recently seen bindings go until the table is within its cap.
    method Evict() returns (n: int)
      requires Valid()
      modifies this
      ensures Valid() && |order| <= old(|order|) && order == old(order)[..|order|] && Nodes() <= old(Nodes())
      ensures Contents() == Capped(old(Contents()), max) && n == old(|order|) - |order|
    {
      hide Indexed, Tallies, Place, Without;
      n := 0;
      if max <= 0 {
        return;
      }
      IndexedFinds(order, index, "");
      while |index| > max
        invariant Valid() && n == old(|order|) - |order| && |order| <= old(|order|) && |index| == |order|
        invariant order == old(order)[..|order|] && Contents() == old(Contents())[..|order|]
        invariant |order| >= max || order == old(order)
        decreases |order|
      {
        var e := order[|order| - 1];
        ghost var was, list := Contents(), order;
        OnePlace(order, index, e);
        Remove(e);
        IndexedFinds(order, index, "");
        WithoutLast(was);
        WithoutLast(list);
        n := n + 1;
      }
    }

    // ----- operations

    method Lookup(provider: string, model: string, sessionKey: string, now: int) returns (found: Option<Binding>)
      requires Valid()
      modifies this, order
      ensures Valid() && fresh(Nodes() - old(Nodes()))
      ensures (State(), found) == SessionTable.Lookup(old(State()), provider, model, sessionKey, now)
    {
      hide Indexed, Tallies;
      if sessionKey == "" {
        return None;
      }
      var key := IndexKey(provider, model, sessionKey);
      Found(key);
      if key !in index {
        return None;
      }
      var e := index[key];
      if Expired(ttl, e.binding, now) {
        Remove(e);
        return None;
      }
      Touch(e, e.binding.(lastSeen := now, hits := e.binding.hits + 1));
      return Some(e.binding);
    }

    method Bind(provider: string, model: string, sessionKey: string, authID: string, now: int) returns (b: Binding)
      requires Valid()
      modifies this, order
      ensures Valid() && fresh(Nodes() - old(Nodes()))
      ensures (State(), b) == SessionTable.Bind(old(State()), provider, model, sessionKey, authID, now)
    {
      hide Indexed, Tallies;
      if sessionKey == "" {
        return NO_BINDING;
      }
      var key := IndexKey(provider, model, sessionKey);
      Found(key);
      if key in index {
        var e := index[key];
        if !Expired(ttl, e.binding, now) && e.binding.authID == authID {
          Touch(e, e.binding.(lastSeen := now));
          return e.binding;
        }
        Unfiled(e);
        Remove(e);
        Found(key);
      }
      b := Binding(sessionKey, provider, model, authID, now, now, 0);
      PushFront(key, b);
      var _ := Evict();
    }

    // Removing an element leaves its key unfiled.
    lemma Unfiled(e: Entry)
      requires Valid() && e in order
      ensures Find(Without(Contents(), Place(order, e)), e.index).None?
    {
      hide Indexed, Tallies;
      OnePlace(order, index, e);
    }

    method Restore(saved: seq<Binding>, now: int) returns (kept: int)
      requires Valid()
      modifies this
      ensures Valid() && fresh(Nodes() - old(Nodes()))
      ensures (State(), kept) == SessionTable.Restore(old(State()), saved, now)
    {
      hide Indexed, Tallies, Place, Find, FileAll, SortSeen;
      var sorted := SortSeen(saved);
      assert sorted[0..] == sorted;
      var n := 0;
      for i := 0 to |sorted|
        invariant Valid() && n == |order| - old(|order|)
        invariant fresh(Nodes() - old(Nodes()))
        invariant FileAll(Contents(), sorted[i..], ttl, now) == FileAll(old(Contents()), sorted, ttl, now)
      {
        var b := sorted[i];
        var key := IndexKey(b.provider, b.model, b.sessionKey);
        FileAllNext(Contents(), sorted, i, ttl, now);
        Found(key);
        if b.sessionKey == "" || b.authID == "" || b.lastSeen > now {
          continue;
        }
        if key in index || Expired(ttl, b, now) {
          continue;
        }
        PushBack(key, b);
        n := n + 1;
      }
      assert sorted[|sorted|..] == [];
      FileNone(Contents(), ttl, now);
      var dropped := Evict();
      kept := n - dropped;
    }

    method DropAuth(authID: string) returns (n: int)
      requires Valid()
      modifies this
      ensures Valid() && fresh(Nodes() - old(Nodes()))
      ensures (State(), n) == SessionTable.DropAuth(old(State()), authID)
    {
      hide Indexed, Tallies, Place, KeepOthers;
      n := 0;
      var i := 0;
      while i < |order|
        invariant Valid() && i <= |order| && n == old(|order|) - |order|
        invariant fresh(Nodes() - old(Nodes()))
        invariant Contents()[..i] + KeepOthers(Contents()[i..], authID) == KeepOthers(old(Contents()), authID)
        decreases |order| - i
      {
        var e := order[i];
        ghost var was := Contents();
        OnePlace(order, index, e);
        KeepHead(was, i, authID);
        if e.binding.authID == authID {
          Remove(e);
          assert Contents()[..i] == was[..i] && Contents()[i..] == was[i + 1..];
          n := n + 1;
        } else {
          i := i + 1;
        }
      }
      KeepHead(Contents(), |order|, authID);
    }

    method Sweep(now: int) returns (n: int)
      requires Valid()
      modifies this
      ensures Valid() && fresh(Nodes() - old(Nodes()))
      ensures (State(), n) == SessionTable.Sweep(old(State()), now)
    {
      hide Indexed, Tallies, Place, SweepFrom, Expired, Without, Nodes;
      if ttl <= 0 {
        return 0;
      }
      n := 0;
      var j := |order|;
      assert Contents()[..j] == Contents() && Contents()[j..] == [];
      while j > 0
        invariant Valid() && 0 <= j <= |order| && n == old(|order|) - |order|
        invariant fresh(Nodes() - old(Nodes()))
        invariant SweepFrom(Contents()[..j], ttl, now) + Contents()[j..] == SweepFrom(old(Contents()), ttl, now)
      {
        var e := order[j - 1];
        ghost var was := Contents();
        OnePlace(order, index, e);
        SweepLast(was, j, ttl, now);
        if now - e.binding.lastSeen <= ttl - SWEEP_SLACK {
          return;
        }
        if Expired(ttl, e.binding, now) {
          Remove(e);
          WithoutAt(was, j - 1);
          n := n + 1;
        }
        j := j - 1;
      }
      SweepNothing(ttl, now);
      assert Contents()[..0] == [] && [] + Contents()[0..] == Contents();
    }

    method CountByAuth(now: int) returns (live: map<string, int>)
      requires Valid()
      ensures Tallies(live, Unexpired(Contents(), ttl, now))
    {
      hide Indexed, Tallies;
      live := counts;
      var j := |order|;
      assert Contents()[..j] == Contents();
      while j > 0
        invariant 0 <= j <= |order|
        invariant Tallies(live, Contents()[..j])
        invariant Unexpired(Contents()[..j], ttl, now) == Unexpired(Contents(), ttl, now)
      {
        var e := order[j - 1];
        ghost var head := Contents()[..j];
        assert Last(head) == Contents()[j - 1] && Front(head) == Contents()[..j - 1];
        if !Expired(ttl, e.binding, now) {
          return;
        }
        TalliesWithout(live, head, j - 1);
        assert Without(head, j - 1) == Front(head);
        var a := e.binding.authID;
        if live[a] - 1 <= 0 {
          live := live - {a};
        } else {
          live := live[a := live[a] - 1];
        }
        j := j - 1;
      }
    }

    method Len() returns (n: int)
      requires Valid()
      ensures n == |Contents()|
    {
      n := |index|;
    }
  }

  lemma FileAllNext(order: seq<Filed>, bs: seq<Binding>, i: nat, ttl: int, now: int)
    requires i < |bs|
    ensures var e := File(bs[i]);
            var order' := if Restorable(bs[i], ttl, now) && Find(order, e.index).None? then order + [e] else order;
            FileAll(order, bs[i..], ttl, now) == FileAll(order', bs[i + 1..], ttl, now)
  {
    assert bs[i..][0] == bs[i] && bs[i..][1..] == bs[i + 1..];
  }

  lemma FileNone(order: seq<Filed>, ttl: int, now: int)
    ensures FileAll(order, [], ttl, now) == order
  {
  }

  lemma KeepHead(s: seq<Filed>, i: nat, a: string)
    requires i <= |s|
    ensures i == |s| ==> s[..i] + KeepOthers(s[i..], a) == s
    ensures i < |s| && s[i].binding.authID != a ==> s[..i] + KeepOthers(s[i..], a) == s[..i + 1] + KeepOthers(s[i + 1..], a)
    ensures i < |s| && s[i].binding.authID == a ==> KeepOthers(s[i..], a) == KeepOthers(s[i + 1..], a)
  {
    if i < |s| {
      assert s[i..][1..] == s[i + 1..];
      assert s[..i] + ([s[i]] + KeepOthers(s[i + 1..], a)) == s[..i + 1] + KeepOthers(s[i + 1..], a);
    }
  }

  lemma SweepNothing(ttl: int, now: int)
    ensures SweepFrom([], ttl, now) == []
  {
  }

  lemma SweepLast(s: seq<Filed>, j: nat, ttl: int, now: int)
    requires 0 < j <= |s|
    ensures now - s[j - 1].binding.lastSeen <= ttl - SWEEP_SLACK ==> SweepFrom(s[..j], ttl, now) + s[j..] == s
    ensures now - s[j - 1].binding.lastSeen > ttl - SWEEP_SLACK && !Expired(ttl, s[j - 1].binding, now) ==>
              SweepFrom(s[..j], ttl, now) + s[j..] == SweepFrom(s[..j - 1], ttl, now) + s[j - 1..]
    ensures now - s[j - 1].binding.lastSeen > ttl - SWEEP_SLACK && Expired(ttl, s[j - 1].binding, now) ==>
              SweepFrom(s[..j], ttl, now) == SweepFrom(s[..j - 1], ttl, now)
  {
    var kept := SweepFrom(s[..j - 1], ttl, now);
    assert Last(s[..j]) == s[j - 1] && Front(s[..j]) == s[..j - 1];
    assert kept + [s[j - 1]] + s[j..] == kept + s[j - 1..] && kept + [] == kept;
  }
}
