/**
 * The per-user sliding-window rate limiter that guards every text message.
 * Before a message is looked at, the user's list of admitted timestamps is
 * pruned to those still inside the trailing window; the message is refused
 * when RATE_LIMIT of them remain, and otherwise its own timestamp is appended.
 */
module RateLimit {

  /** At most this many messages are admitted per user inside one window. */
  const RATE_LIMIT: nat := 5

  /** Width of the trailing window, in seconds. */
  const RATE_WINDOW: int := 10

  /** Timestamp `t` still counts against the window that ends at `now`. */
  predicate InWindow(t: int, now: int)
  {
    now - t < RATE_WINDOW
  }

  /**
   * The filter applied on every message: a timestamp is kept exactly when
   * it occurs in `ts` and is still in the window. (PruneCounts adds that
   * each is kept as often as it occurred, PruneConcat that the kept ones
   * stay in their original order.)
   */
  function Prune(ts: seq<int>, now: int): (kept: seq<int>)
    ensures |kept| <= |ts|
    ensures forall t :: t in kept <==> t in ts && InWindow(t, now)
  {
    if ts == [] then []
    else if InWindow(ts[0], now) then [ts[0]] + Prune(ts[1..], now)
    else Prune(ts[1..], now)
  }

  /**
   * Pruning removes every occurrence of an expired timestamp and keeps every
   * occurrence of one still in the window.
   */
  lemma {:induction false} PruneCounts(ts: seq<int>, now: int)
    ensures forall t :: multiset(Prune(ts, now))[t] == if InWindow(t, now) then multiset(ts)[t] else 0
  {
    if ts != [] {
      PruneCounts(ts[1..], now);
      assert ts == [ts[0]] + ts[1..];
    }
  }

  /** A message arriving at `now` is admitted after pruning `ts`. */
  predicate Admits(ts: seq<int>, now: int)
  {
    |Prune(ts, now)| < RATE_LIMIT
  }

  /**
   * Pruning distributes over concatenation: it works element by element and
   * never reorders what it keeps.
   */
  lemma {:induction false} PruneConcat(a: seq<int>, b: seq<int>, now: int)
    ensures Prune(a + b, now) == Prune(a, now) + Prune(b, now)
  {
    if a == [] {
      assert a + b == b;
    } else {
      assert (a + b)[0] == a[0];
      assert (a + b)[1..] == a[1..] + b;
      PruneConcat(a[1..], b, now);
    }
  }

  /**
   * Pruning at an earlier time and then again at a later one is the same as
   * pruning once at the later time: repeated pruning on successive messages
   * neither loses a timestamp nor counts one twice.
   */
  lemma {:induction false} PruneLater(ts: seq<int>, now: int, later: int)
    requires now <= later
    ensures Prune(Prune(ts, now), later) == Prune(ts, later)
  {
    if ts != [] {
      PruneLater(ts[1..], now, later);
      if InWindow(ts[0], now) {
        assert Prune(ts, now) == [ts[0]] + Prune(ts[1..], now);
        assert ([ts[0]] + Prune(ts[1..], now))[1..] == Prune(ts[1..], now);
      }
    }
  }

  /** When every timestamp is still in the window, pruning keeps them all. */
  lemma {:induction false} PruneAllInWindow(ts: seq<int>, now: int)
    requires forall i :: 0 <= i < |ts| ==> InWindow(ts[i], now)
    ensures Prune(ts, now) == ts
  {
    if ts != [] {
      PruneAllInWindow(ts[1..], now);
      assert [ts[0]] + ts[1..] == ts;
    }
  }

  /** When every timestamp has left the window, pruning empties the list. */
  lemma {:induction false} PruneAllExpired(ts: seq<int>, now: int)
    requires forall i :: 0 <= i < |ts| ==> !InWindow(ts[i], now)
    ensures Prune(ts, now) == []
  {
    if ts != [] {
      PruneAllExpired(ts[1..], now);
    }
  }

  /**
   * RATE_LIMIT admitted messages still inside the window refuse the next
   * one; once all of them have left the window the next one is admitted.
   */
  lemma LimitWithinWindow(ts: seq<int>, now: int)
    requires |ts| >= RATE_LIMIT
    requires forall i :: 0 <= i < |ts| ==> InWindow(ts[i], now)
    ensures !Admits(ts, now)
  {
    PruneAllInWindow(ts, now);
  }

  lemma WindowCleared(ts: seq<int>, now: int)
    requires forall i :: 0 <= i < |ts| ==> !InWindow(ts[i], now)
    ensures Admits(ts, now)
  {
    PruneAllExpired(ts, now);
  }

  /** Five messages at seconds 0 to 4: a sixth at second 5 is refused. */
  lemma BurstRefused()
    ensures !Admits([0, 1, 2, 3, 4], 5)
  {
    LimitWithinWindow([0, 1, 2, 3, 4], 5);
  }

  /**
   * After the same burst, at second 11 the first two have left the window,
   * so a seventh message is admitted.
   */
  lemma PauseAdmits()
    ensures Prune([0, 1, 2, 3, 4], 11) == [2, 3, 4]
    ensures Admits([0, 1, 2, 3, 4], 11)
  {
    var ts := [0, 1, 2, 3, 4];
    assert ts[1..] == [1, 2, 3, 4] && ts[2..] == [2, 3, 4];
    PruneAllInWindow([2, 3, 4], 11);
  }
}
