/** The bounded log of routing decisions: a circular buffer that refines the
    newest entries of a sequence. */
module Decisions {
  import opened Basics

  // The last n entries of s, or all of them.
  function LastN<T>(s: seq<T>, n: nat): (r: seq<T>)
    ensures |r| == Min(|s|, n)
  {
    if |s| <= n then s else s[|s| - n..]
  }

  function Reversed<T>(s: seq<T>): (r: seq<T>)
    ensures |r| == |s| && forall i :: 0 <= i < |s| ==> r[i] == s[|s| - 1 - i]
  {
    seq(|s|, i requires 0 <= i < |s| => s[|s| - 1 - i])
  }

  function Limit(limit: int): (n: nat)
    ensures n > 0
  {
    if limit <= 0 then 1 else limit
  }

  function Wrap(x: nat, n: nat): (r: nat)
    requires n > 0
    ensures r < n && (x < n ==> r == x) && (n <= x < 2 * n ==> r == x - n)
  {
    WrapOnce(x, n);
    x % n
  }

  lemma WrapOnce(x: nat, n: nat)
    requires n > 0
    ensures x < n ==> x % n == x
    ensures n <= x < 2 * n ==> x % n == x - n
  {
    if n <= x < 2 * n {
      assert (x - n) % n == x - n;
      assert x == (x - n) + n * 1;
    }
  }

  // A ring's entries, oldest first.
  function InOrder<T>(entries: seq<T>, next: nat, full: bool): seq<T>
    requires next < |entries|
  {
    if full then entries[next..] + entries[..next] else entries[..next]
  }

  lemma AddedInOrder<T>(was: seq<T>, at: nat, full: bool, d: T)
    requires at < |was|
    ensures var wraps := at + 1 == |was|;
            InOrder(was[at := d], if wraps then 0 else at + 1, full || wraps) == LastN(InOrder(was, at, full) + [d], |was|)
  {
    var all := was[at := d];
    assert all[..at + 1] == was[..at] + [d] && all[at + 1..] == was[at + 1..];
    var kept := InOrder(was, at, full) + [d];
    if full {
      assert kept == [was[at]] + (was[at + 1..] + was[..at] + [d]);
      assert LastN(kept, |was|) == was[at + 1..] + was[..at] + [d];
    } else {
      assert LastN(kept, |was|) == kept == all[..at + 1];
    }
    if at + 1 == |was| {
      assert all == all[..at + 1] && all[0..] + all[..0] == all && was[at + 1..] == [];
    } else if full {
      assert all[at + 1..] + all[..at + 1] == was[at + 1..] + (was[..at] + [d]);
    }
  }

  class DecisionLog<T(0)> {
    var entries: array<T>
    var next: nat
    var full: bool

    ghost predicate Valid()
      reads this
    {
      next < entries.Length
    }

    // What the log retains, oldest first.
    ghost function Kept(): seq<T>
      requires Valid()
      reads this, entries
    {
      InOrder(entries[..], next, full)
    }

    constructor (limit: int)
      ensures Valid() && Kept() == [] && entries.Length == Limit(limit) && fresh(entries)
    {
      entries := new T[Limit(limit)];
      next, full := 0, false;
    }

    // The kept decisions gain one, and lose their first past the capacity.
    method Add(d: T)
      requires Valid()
      modifies this, entries
      ensures Valid() && entries == old(entries)
      ensures Kept() == LastN(old(Kept()) + [d], entries.Length)
    {
      hide Wrap, InOrder, LastN;
      ghost var was, at := entries[..], next;
      AddedInOrder(was, at, full, d);
      entries[next] := d;
      next := Wrap(next + 1, entries.Length);
      if next == 0 {
        full := true;
      }
      assert entries[..] == was[at := d];
    }

    // Every retained decision, most recent first.
    method NewestFirst() returns (out: seq<T>)
      requires Valid()
      ensures out == Reversed(Kept())
    {
      hide Wrap;
      var count := if full then entries.Length else next;
      out := [];
      for i := 1 to count + 1
        invariant |out| == i - 1
        invariant out == Reversed(Kept())[..i - 1]
      {
        var idx := Wrap(next - i + entries.Length, entries.Length);
        assert entries[idx] == Kept()[|Kept()| - i];
        out := out + [entries[idx]];
      }
    }

    // The kept decisions lose as many of the first as no longer fit.
    method Resize(limit0: int)
      requires Valid()
      modifies this
      ensures Valid() && entries.Length == Limit(limit0) && (entries == old(entries) || fresh(entries))
      ensures Kept() == LastN(old(Kept()), entries.Length)
    {
      hide Wrap, Limit;
      var limit := Limit(limit0);
      if limit == entries.Length {
        return;
      }
      ghost var was := Kept();
      var kept := NewestFirst();
      if |kept| > limit {
        kept := kept[..limit];
      }
      assert kept == Reversed(LastN(was, limit));
      Refill(kept, limit);
    }

    // A new ring of the given capacity, filled from its newest entries.
    method Refill(kept: seq<T>, limit: nat)
      requires 0 < limit && |kept| <= limit
      modifies this
      ensures Valid() && entries.Length == limit && fresh(entries) && Kept() == Reversed(kept)
    {
      hide Wrap;
      var fit := new T[limit];
      entries, next, full := fit, 0, false;
      var i := |kept| - 1;
      while i >= 0
        invariant -1 <= i < |kept| && entries == fit
        invariant full <==> |kept| == limit && i == -1
        invariant next == if full then 0 else |kept| - 1 - i
        invariant fit[..|kept| - 1 - i] == Reversed(kept)[..|kept| - 1 - i]
      {
        fit[next] := kept[i];
        next := Wrap(next + 1, limit);
        if next == 0 {
          full := true;
        }
        i := i - 1;
      }
    }
  }

  // ----- whole runs

  datatype Op<T> = OpAdd(d: T) | OpResize(limit: int)

  // The capacity and the retained entries after a run, as the methods leave
  // them.
  function After<T>(cap: nat, ops: seq<Op<T>>): (r: (nat, seq<T>)) {
    if ops == [] then (cap, [])
    else
      var (c, kept) := After(cap, ops[..|ops| - 1]);
      match ops[|ops| - 1]
      case OpAdd(d) => (c, LastN(kept + [d], c))
      case OpResize(limit) => (Limit(limit), LastN(kept, Limit(limit)))
  }

  function Added<T>(ops: seq<Op<T>>): seq<T> {
    if ops == [] then []
    else Added(ops[..|ops| - 1]) + match ops[|ops| - 1] case OpAdd(d) => [d] case OpResize(_) => []
  }

  // How many of the newest decisions every capacity since has left room for.
  function Room<T>(cap: nat, ops: seq<Op<T>>): nat {
    if ops == [] then 0
    else
      var room := Room(cap, ops[..|ops| - 1]);
      match ops[|ops| - 1]
      case OpAdd(_) => Min(room + 1, After(cap, ops[..|ops| - 1]).0)
      case OpResize(limit) => Min(room, Limit(limit))
  }

  lemma LastNSnoc<T>(s: seq<T>, d: T, n: nat, c: nat)
    requires n <= |s| && n <= c && c > 0
    ensures LastN(LastN(s, n) + [d], c) == LastN(s + [d], Min(n + 1, c))
  {
  }

  lemma LastNTwice<T>(s: seq<T>, n: nat, c: nat)
    requires n <= |s|
    ensures LastN(LastN(s, n), c) == LastN(s, Min(n, c))
  {
  }

  // After any run the log holds the newest decisions of all that were added,
  // as many as every capacity since has left room for.
  lemma {:induction false} LogIsNewest<T>(cap: nat, ops: seq<Op<T>>)
    requires cap > 0
    ensures var (c, kept) := After(cap, ops);
            c > 0 && |kept| == Room(cap, ops) <= c && Room(cap, ops) <= |Added(ops)|
            && kept == LastN(Added(ops), Room(cap, ops))
  {
    hide LastN, Limit;
    if ops != [] {
      var p := ops[..|ops| - 1];
      LogIsNewest(cap, p);
      var all, room := Added(p), Room(cap, p);
      match ops[|ops| - 1]
      case OpAdd(d) =>
        LastNSnoc(all, d, room, After(cap, p).0);
      case OpResize(limit) =>
        LastNTwice(all, room, Limit(limit));
        assert all + [] == all;
    }
  }
}
