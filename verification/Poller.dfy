/** When the next poll falls due, and how many polls resets can add. */
module Poller {
  import opened Basics
  import opened Windows

  const RESET_SETTLE := 4 * SECOND
  const RESET_WAKE_FLOOR := 30 * SECOND

  // The reset instants a poll's snapshots carry.
  ghost function Resets(snaps: seq<Snapshot>): set<int> {
    set i, j | 0 <= i < |snaps| && 0 <= j < |snaps[i].windows| && snaps[i].windows[j].resetsAt.Some?
      :: snaps[i].windows[j].resetsAt.value
  }

  // The earliest reset still ahead of now.
  ghost predicate Earliest(resets: set<int>, now: int, e: Option<int>) {
    match e
    case None => forall r :: r in resets ==> r <= now
    case Some(v) => v in resets && now < v && forall r :: r in resets && now < r ==> v <= r
  }

  // wait is within the interval and reaches no further than four seconds past
  // any reset ahead, or thirty seconds where that is sooner than that; and is
  // short of the interval only for a reset that makes it so.
  ghost predicate Wakes(resets: set<int>, now: int, interval: int, wait: int) {
    && wait <= interval
    && (forall r :: r in resets && now < r ==> wait <= Max(r - now + 4 * SECOND, 30 * SECOND))
    && (wait < interval ==> exists r :: r in resets && Drives(r, now, wait))
  }

  ghost predicate Drives(r: int, now: int, wait: int) { now < r && wait == Max(r - now + 4 * SECOND, 30 * SECOND) }

  // There is one such wait.
  lemma WakesOnce(resets: set<int>, now: int, interval: int, v: int, w: int)
    requires Wakes(resets, now, interval, v) && Wakes(resets, now, interval, w)
    ensures v == w
  {
  }

  // The resets of the snapshots before i and of the i-th one's windows before
  // j.
  ghost predicate SeenResets(snaps: seq<Snapshot>, i: nat, j: nat, seen: set<int>) {
    && (forall k, l :: 0 <= k < |snaps| && 0 <= l < |snaps[k].windows| && (k < i || (k == i && l < j)) ==>
          snaps[k].windows[l].resetsAt.None? || snaps[k].windows[l].resetsAt.value in seen)
    && seen <= Resets(snaps)
  }

  method NextPollWait(snaps: seq<Snapshot>, now: int, interval: int) returns (wait: int)
    ensures Wakes(Resets(snaps), now, interval, wait)
    ensures interval >= RESET_WAKE_FLOOR ==> RESET_WAKE_FLOOR <= wait <= interval
  {
    var earliest: Option<int> := None;
    ghost var seen: set<int> := {};
    for i := 0 to |snaps|
      invariant Earliest(seen, now, earliest) && SeenResets(snaps, i, 0, seen)
    {
      for j := 0 to |snaps[i].windows|
        invariant Earliest(seen, now, earliest) && SeenResets(snaps, i, j, seen)
      {
        var w := snaps[i].windows[j];
        if w.resetsAt.Some? {
          assert w.resetsAt.value in Resets(snaps);
          seen := seen + {w.resetsAt.value};
        }
        if w.resetsAt.None? || w.resetsAt.value <= now {
          continue;
        }
        if earliest.None? || w.resetsAt.value < earliest.value {
          earliest := w.resetsAt;
        }
      }
    }
    assert seen == Resets(snaps);
    if earliest.None? {
      return interval;
    }
    wait := Min(Max(earliest.value - now + RESET_SETTLE, RESET_WAKE_FLOOR), interval);
    assert wait < interval ==> Drives(earliest.value, now, wait);
  }

  // ----- runs of polls

  // A poll that ran at its instant over the resets known then, and the wait it
  // returned.
  datatype Poll = Poll(at: int, resets: set<int>, wait: int)

  // Each poll waits as NextPollWait says, and the next runs no earlier.
  ghost predicate Polls(polls: seq<Poll>, interval: int) {
    && (forall k :: 0 <= k < |polls| ==> Wakes(polls[k].resets, polls[k].at, interval, polls[k].wait))
    && (forall k :: 0 <= k < |polls| - 1 ==> polls[k].at + polls[k].wait <= polls[k + 1].at)
  }

  // All that any poll knew of.
  ghost predicate KnownTo(polls: seq<Poll>, resets: set<int>) {
    forall k :: 0 <= k < |polls| ==> polls[k].resets <= resets
  }

  // The next poll runs no later than lag after it falls due.
  ghost predicate Punctual(polls: seq<Poll>, lag: nat) {
    forall k :: 0 <= k < |polls| - 1 ==> polls[k + 1].at <= polls[k].at + polls[k].wait + lag
  }

  // A reset that stays on record while it is ahead is read once it has passed:
  // the first poll at or after it comes within the settle of the reset, or the
  // floor of the poll before, and the lag.
  lemma {:induction false} ResetIsRead(polls: seq<Poll>, interval: int, lag: nat, r: int) returns (k: nat)
    requires polls != [] && Polls(polls, interval) && Punctual(polls, lag)
    requires polls[0].at < r <= Last(polls).at
    requires forall i :: 0 <= i < |polls| && polls[i].at < r ==> r in polls[i].resets
    ensures 0 < k < |polls| && polls[k - 1].at < r <= polls[k].at
    ensures polls[k].at <= Max(r + 4 * SECOND, polls[k - 1].at + 30 * SECOND) + lag < r + 30 * SECOND + lag
  {
    k := |polls| - 1;
    if polls[k - 1].at >= r {
      k := ResetIsRead(Front(polls), interval, lag, r);
    }
  }

  // The resets that shortened a wake before the last poll.
  ghost function Charged(polls: seq<Poll>, interval: int): set<int>
    requires Polls(polls, interval)
  {
    if |polls| <= 1 then {}
    else
      var p := polls[|polls| - 2];
      Charged(Front(polls), interval) + if p.wait < interval then {Driver(p, interval)} else {}
  }

  ghost function Driver(p: Poll, interval: int): (r: int)
    requires Wakes(p.resets, p.at, interval, p.wait) && p.wait < interval
    ensures r in p.resets && Drives(r, p.at, p.wait)
  {
    var r :| r in p.resets && Drives(r, p.at, p.wait);
    r
  }

  ghost function Plain(polls: seq<Poll>, interval: int): nat {
    if |polls| <= 1 then 0
    else Plain(Front(polls), interval) + if polls[|polls| - 2].wait < interval then 0 else 1
  }

  // Each shortened wake is charged to a reset later than every one charged
  // before: a poll a reset drives leaves it in the past.
  lemma {:induction false} ChargesIncrease(polls: seq<Poll>, resets: set<int>, interval: int)
    requires polls != [] && Polls(polls, interval) && KnownTo(polls, resets) && interval >= 0
    ensures Charged(polls, interval) <= resets
    ensures forall r :: r in Charged(polls, interval) ==> r < Last(polls).at
    ensures |Charged(polls, interval)| + Plain(polls, interval) == |polls| - 1
    ensures Plain(polls, interval) * interval <= Last(polls).at - polls[0].at
  {
    if |polls| > 1 {
      var p, q := polls[|polls| - 2], polls[|polls| - 1];
      var front := Front(polls);
      ChargesIncrease(front, resets, interval);
      assert Last(front) == p && front[0] == polls[0];
      assert p.at + p.wait <= q.at;
      if p.wait < interval {
        assert Driver(p, interval) !in Charged(front, interval);
      } else {
        OneMore(Plain(front, interval), interval);
      }
    }
  }

  lemma OneMore(n: int, d: int)
    ensures (n + 1) * d == n * d + d
  {
  }

  lemma SubsetSize(a: set<int>, b: set<int>)
    requires a <= b
    ensures |a| <= |b|
  {
    assert b == a + (b - a) && a * (b - a) == {};
  }

  // Polls number at most one an interval, one a distinct reset, and the first.
  lemma PollsBounded(polls: seq<Poll>, resets: set<int>, interval: int)
    requires polls != [] && Polls(polls, interval) && KnownTo(polls, resets) && interval > 0
    ensures |polls| <= (Last(polls).at - polls[0].at) / interval + |resets| + 1
  {
    ChargesIncrease(polls, resets, interval);
    SubsetSize(Charged(polls, interval), resets);
    FitsWhole(Plain(polls, interval), interval, Last(polls).at - polls[0].at);
  }

  lemma MulGrows(a: int, b: int, d: int)
    requires a <= b && d > 0
    ensures a * d <= b * d
  {
    assert (b - a) * d >= 0;
  }

  lemma FitsWhole(n: nat, d: int, total: int)
    requires d > 0 && n * d <= total
    ensures n <= total / d
  {
    var q := total / d;
    assert total < (q + 1) * d;
    if q + 1 <= n {
      MulGrows(q + 1, n, d);
    }
  }
}
