/** Shared vocabulary: optional values, instants and sequence helpers. */
module Basics {

  datatype Option<+T> = None | Some(value: T)

  // An instant is a count of nanoseconds since the Unix epoch, a duration a
  // count of nanoseconds. The zero time.Time is `None` where the program gives
  // it a meaning. Every step the program truncates to divides the distance
  // between the epoch and the origin of Go's Truncate, so both origins put an
  // instant in the same bucket.
  const SECOND := 1_000_000_000
  const MINUTE := 60 * SECOND
  const HOUR := 60 * MINUTE
  const DAY := 24 * HOUR

  function Truncate(t: int): (r: int)
    ensures r % SECOND == 0
    ensures r <= t < r + SECOND
  {
    t / SECOND * SECOND
  }

  lemma TruncateFacts(t: int, u: int)
    ensures t <= u ==> Truncate(t) <= Truncate(u)
    ensures t % SECOND == 0 ==> Truncate(t) == t
    ensures t % SECOND == 0 && t <= u ==> t <= Truncate(u)
  {
  }

  function Max(a: int, b: int): int { if a < b then b else a }

  function Min(a: int, b: int): int { if a < b then a else b }

  function Last<T>(s: seq<T>): T
    requires s != []
  {
    s[|s| - 1]
  }

  function Front<T>(s: seq<T>): seq<T>
    requires s != []
  {
    s[..|s| - 1]
  }

  function Without<T>(s: seq<T>, i: nat): (rest: seq<T>)
    requires i < |s|
    ensures |rest| == |s| - 1
    ensures forall k :: 0 <= k < |rest| ==> rest[k] == s[if k < i then k else k + 1]
  {
    s[..i] + s[i + 1..]
  }

  // The instant a is after o, where no instant is before every instant.
  predicate After(a: int, o: Option<int>) { o.None? || o.value < a }

  // part is whole at the increasing indices idx.
  ghost predicate Picks<T>(idx: seq<nat>, part: seq<T>, whole: seq<T>) {
    && |idx| == |part|
    && (forall k :: 0 <= k < |part| ==> idx[k] < |whole| && part[k] == whole[idx[k]])
    && (forall k, l :: 0 <= k < l < |part| ==> idx[k] < idx[l])
  }

  function Shift(idx: seq<nat>): (r: seq<nat>)
    ensures |r| == |idx| && forall k :: 0 <= k < |idx| ==> r[k] == idx[k] + 1
  {
    seq(|idx|, k requires 0 <= k < |idx| => idx[k] + 1)
  }

  lemma PicksCons<T>(idx: seq<nat>, part: seq<T>, whole: seq<T>)
    requires whole != [] && Picks(idx, part, whole[1..])
    ensures Picks(Shift(idx), part, whole) && Picks([0] + Shift(idx), [whole[0]] + part, whole)
  {
  }

  lemma {:induction false} PicksAhead(idx: seq<nat>, k: nat)
    requires k < |idx| && forall i, j :: 0 <= i < j < |idx| ==> idx[i] < idx[j]
    ensures k <= idx[k]
  {
    if k > 0 {
      PicksAhead(idx, k - 1);
    }
  }
}
