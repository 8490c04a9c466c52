/** The sliding-window limiter: a table of per-key queues with eviction, against a plain count
    over the full history of accepted requests. */
module RateLimiter {
  import opened Basics

  type Key = nat
  type Time = real

  const WINDOW: real := 60.0

  /** One accepted request. */
  datatype Hit = Hit(key: Key, at: Time)

  datatype Decision = Accept | LimitExceeded | AtCapacity

  // ----- The specification: counting the full history

  /** When the requests of a key were accepted, oldest first. */
  function Times(history: seq<Hit>, k: Key): seq<Time> {
    if history == [] then []
    else
      var hit := history[|history| - 1];
      Times(history[..|history| - 1], k) + (if hit.key == k then [hit.at] else [])
  }

  /** The entries of the last window before now. */
  function Recent(times: seq<Time>, now: Time): seq<Time> {
    if times == [] then []
    else
      var t := times[|times| - 1];
      Recent(times[..|times| - 1], now) + (if t > now - WINDOW then [t] else [])
  }

  /** The keys with an accepted request in the last window. */
  function LiveKeys(history: seq<Hit>, now: Time): set<Key> {
    set hit | hit in history && hit.at > now - WINDOW :: hit.key
  }

  /** The decision by naive counting. */
  function Decide(history: seq<Hit>, limit: nat, capacity: nat, k: Key, now: Time): Decision {
    if |LiveKeys(history, now)| >= capacity then AtCapacity
    else if |Recent(Times(history, k), now)| >= limit then LimitExceeded
    else Accept
  }

  // ----- Histories

  ghost predicate Sorted(times: seq<Time>) {
    forall i, j | 0 <= i < j < |times| :: times[i] <= times[j]
  }

  ghost predicate NotAfter(times: seq<Time>, last: Time) {
    forall i | 0 <= i < |times| :: times[i] <= last
  }

  lemma TimesSnoc(history: seq<Hit>, hit: Hit, k: Key)
    ensures Times(history + [hit], k) == if hit.key == k then Times(history, k) + [hit.at] else Times(history, k)
  {
    assert (history + [hit])[..|history|] == history;
  }

  lemma {:induction false} TimesMembers(history: seq<Hit>, k: Key, t: Time)
    ensures t in Times(history, k) <==> Hit(k, t) in history
  {
    if history != [] {
      var n := |history| - 1;
      TimesMembers(history[..n], k, t);
      assert history == history[..n] + [history[n]];
    }
  }

  lemma LiveIffRecent(history: seq<Hit>, k: Key, now: Time)
    ensures k in LiveKeys(history, now) <==> exists t :: t in Times(history, k) && t > now - WINDOW
  {
    if k in LiveKeys(history, now) {
      var hit :| hit in history && hit.at > now - WINDOW && hit.key == k;
      TimesMembers(history, k, hit.at);
    }
    if t :| t in Times(history, k) && t > now - WINDOW {
      TimesMembers(history, k, t);
      assert Hit(k, t).key in LiveKeys(history, now);
    }
  }

  /** In a sorted list the recent entries are the suffix behind the last stale one. */
  lemma {:induction false} RecentIsSuffix(times: seq<Time>, now: Time, n: nat)
    requires n <= |times|
    requires forall i | 0 <= i < n :: times[i] <= now - WINDOW
    requires forall i | n <= i < |times| :: times[i] > now - WINDOW
    ensures Recent(times, now) == times[n..]
  {
    if times != [] {
      var m := |times| - 1;
      if n == |times| {
        RecentIsSuffix(times[..m], now, m);
      } else {
        RecentIsSuffix(times[..m], now, n);
        assert times[n..] == times[..m][n..] + [times[m]];
      }
    }
  }

  // ----- No window is ever overfull

  /** How many accepted requests lie in the window that starts after a. */
  function WindowCount(times: seq<Time>, a: Time): nat {
    if times == [] then 0
    else
      var t := times[|times| - 1];
      WindowCount(times[..|times| - 1], a) + (if a < t <= a + WINDOW then 1 else 0)
  }

  /** Each request was accepted while fewer than limit recent ones were on record. */
  ghost predicate Spaced(times: seq<Time>, limit: nat) {
    forall j | 0 <= j < |times| :: |Recent(times[..j], times[j])| < limit
  }

  lemma {:induction false} WindowWithinRecent(times: seq<Time>, a: Time, now: Time)
    requires now - WINDOW <= a
    ensures WindowCount(times, a) <= |Recent(times, now)|
  {
    if times != [] {
      WindowWithinRecent(times[..|times| - 1], a, now);
    }
  }

  /** Whatever window of 60 seconds one looks at, at most limit accepted requests of a key lie in it. */
  lemma {:induction false} WindowsWithinLimit(times: seq<Time>, limit: nat, a: Time)
    requires Spaced(times, limit)
    ensures WindowCount(times, a) <= limit
  {
    if times != [] {
      var n := |times| - 1;
      forall j | 0 <= j < n ensures |Recent(times[..n][..j], times[..n][j])| < limit {
        assert times[..n][..j] == times[..j];
      }
      WindowsWithinLimit(times[..n], limit, a);
      if a < times[n] <= a + WINDOW {
        WindowWithinRecent(times[..n], a, times[n]);
      }
    }
  }

  lemma SpacedGrows(times: seq<Time>, limit: nat, now: Time)
    requires Spaced(times, limit) && |Recent(times, now)| < limit
    ensures Spaced(times + [now], limit)
  {
    var times' := times + [now];
    forall j | 0 <= j < |times'| ensures |Recent(times'[..j], times'[j])| < limit {
      if j < |times| { assert times'[..j] == times[..j]; } else { assert times'[..j] == times; }
    }
  }

  // ----- The table

  /** A queue holds the tail of the key's history; what it lost was stale at the given time. */
  ghost predicate Tracks(queue: seq<Time>, times: seq<Time>, last: Time) {
    && |queue| <= |times|
    && queue == times[|times| - |queue|..]
    && forall i | 0 <= i < |times| - |queue| :: times[i] <= last - WINDOW
  }

  function Queue(requests: map<Key, seq<Time>>, k: Key): seq<Time> {
    if k in requests then requests[k] else []
  }

  ghost predicate QueueInv(times: seq<Time>, queue: seq<Time>, limit: nat, last: Time) {
    Sorted(times) && NotAfter(times, last) && Spaced(times, limit) && Tracks(queue, times, last)
  }

  /** What is known of one key. */
  ghost predicate KeyInv(requests: map<Key, seq<Time>>, history: seq<Hit>, limit: nat, last: Time, k: Key) {
    QueueInv(Times(history, k), Queue(requests, k), limit, last)
  }

  ghost predicate TableInv(requests: map<Key, seq<Time>>, history: seq<Hit>, limit: nat, last: Time) {
    forall k: Key :: KeyInv(requests, history, limit, last, k)
  }

  predicate Idle(queue: seq<Time>, now: Time) {
    queue == [] || queue[|queue| - 1] <= now - WINDOW
  }

  /** A queue is idle exactly when its key has no request in the last window. */
  lemma IdleIffNotLive(requests: map<Key, seq<Time>>, history: seq<Hit>, limit: nat, last: Time, k: Key, now: Time)
    requires KeyInv(requests, history, limit, last, k) && last <= now
    ensures Idle(Queue(requests, k), now) <==> k !in LiveKeys(history, now)
  {
    var times, queue := Times(history, k), Queue(requests, k);
    LiveIffRecent(history, k, now);
    if !Idle(queue, now) {
      assert queue[|queue| - 1] == times[|times| - 1] && times[|times| - 1] in times;
    }
    if t :| t in times && t > now - WINDOW {
      var i :| 0 <= i < |times| && times[i] == t;
      assert queue[|queue| - 1] == times[|times| - 1] >= t;
    }
  }

  /** Time passes: the invariant survives. */
  lemma TimePasses(requests: map<Key, seq<Time>>, history: seq<Hit>, limit: nat, last: Time, now: Time)
    requires TableInv(requests, history, limit, last) && last <= now
    ensures TableInv(requests, history, limit, now)
  {
    forall k: Key ensures KeyInv(requests, history, limit, now, k) {
      assert KeyInv(requests, history, limit, last, k);
    }
  }

  /** Dropping idle queues loses nothing. */
  lemma EvictKeepsInv(
    requests: map<Key, seq<Time>>, history: seq<Hit>, limit: nat, now: Time, kept: map<Key, seq<Time>>)
    requires TableInv(requests, history, limit, now)
    requires kept == map k | k in requests && !Idle(requests[k], now) :: requests[k]
    ensures TableInv(kept, history, limit, now)
    ensures kept.Keys == LiveKeys(history, now)
  {
    forall k: Key ensures KeyInv(kept, history, limit, now, k) && (k in kept <==> k in LiveKeys(history, now)) {
      assert KeyInv(requests, history, limit, now, k);
      IdleIffNotLive(requests, history, limit, now, k, now);
      if k !in kept { DropIdle(Queue(requests, k), Times(history, k), now); }
    }
  }

  lemma DropIdle(queue: seq<Time>, times: seq<Time>, now: Time)
    requires Sorted(times) && Tracks(queue, times, now) && Idle(queue, now)
    ensures Tracks([], times, now)
  {
    forall i | 0 <= i < |times| ensures times[i] <= now - WINDOW {
      if i >= |times| - |queue| { assert queue[|queue| - 1] == times[|times| - 1]; }
    }
  }

  /** Live keys all have a queue, so a table below its cap has fewer live keys than the cap. */
  lemma LiveAreTracked(requests: map<Key, seq<Time>>, history: seq<Hit>, limit: nat, now: Time)
    requires TableInv(requests, history, limit, now)
    ensures |LiveKeys(history, now)| <= |requests|
  {
    var live := LiveKeys(history, now);
    forall k | k in live ensures k in requests {
      assert KeyInv(requests, history, limit, now, k);
      IdleIffNotLive(requests, history, limit, now, k, now);
    }
    SubsetSize(live, requests.Keys);
  }

  /** Storing the trimmed queue of one key. */
  lemma TrimKeepsInv(
    requests: map<Key, seq<Time>>, history: seq<Hit>, limit: nat, now: Time, k: Key, entries: seq<Time>)
    requires TableInv(requests, history, limit, now) && Tracks(entries, Times(history, k), now)
    ensures TableInv(requests[k := entries], history, limit, now)
  {
    var requests' := requests[k := entries];
    forall x: Key ensures KeyInv(requests', history, limit, now, x) {
      assert KeyInv(requests, history, limit, now, x);
    }
  }

  lemma QueueGrows(times: seq<Time>, entries: seq<Time>, limit: nat, now: Time)
    requires QueueInv(times, entries, limit, now) && |Recent(times, now)| < limit
    ensures QueueInv(times + [now], entries + [now], limit, now)
  {
    var n := |times| - |entries|;
    assert (times + [now])[n..] == times[n..] + [now];
    SpacedGrows(times, limit, now);
  }

  /** Accepting one request. */
  lemma AcceptKeepsInv(
    requests: map<Key, seq<Time>>, history: seq<Hit>, limit: nat, now: Time, k: Key, entries: seq<Time>)
    requires TableInv(requests, history, limit, now) && Tracks(entries, Times(history, k), now)
    requires |Recent(Times(history, k), now)| < limit
    ensures TableInv(requests[k := entries + [now]], history + [Hit(k, now)], limit, now)
  {
    var requests', history' := requests[k := entries + [now]], history + [Hit(k, now)];
    assert KeyInv(requests, history, limit, now, k);
    QueueGrows(Times(history, k), entries, limit, now);
    forall x: Key ensures KeyInv(requests', history', limit, now, x) {
      TimesSnoc(history, Hit(k, now), x);
      assert KeyInv(requests, history, limit, now, x);
      assert Queue(requests', x) == if x == k then entries + [now] else Queue(requests, x);
    }
  }

  /** RateLimitMiddleware: the table under its lock. The history is what the proof remembers. */
  class Limiter {
    const limit: nat
    const capacity: nat
    var requests: map<Key, seq<Time>>
    ghost var history: seq<Hit>
    ghost var last: Time

    ghost predicate Valid()
      reads this
    {
      |requests| <= capacity && TableInv(requests, history, limit, last)
    }

    constructor (limit: nat, capacity: nat, now: Time)
      ensures Valid() && history == [] && last == now && this.limit == limit && this.capacity == capacity
    {
      this.limit, this.capacity := limit, capacity;
      requests, history, last := map[], [], now;
    }

    /** popleft while the head is stale; what is left are exactly the recent entries. */
    method Trim(queue: seq<Time>, now: Time, ghost times: seq<Time>) returns (entries: seq<Time>)
      requires Sorted(times) && Tracks(queue, times, now)
      ensures entries == Recent(times, now) && Tracks(entries, times, now)
    {
      entries := queue;
      while entries != [] && entries[0] <= now - WINDOW
        invariant Tracks(entries, times, now)
        decreases |entries|
      {
        ghost var n := |times| - |entries|;
        assert entries[0] == times[n];
        entries := entries[1..];
        assert times[n + 1..] == times[n..][1..];
      }
      ghost var n := |times| - |entries|;
      forall i | n <= i < |times| ensures times[i] > now - WINDOW {
        assert entries[0] == times[n];
      }
      RecentIsSuffix(times, now, n);
    }

    /** One request: the decision is the one that naive counting over the full history gives, the
        queue of the key ends up as the recent part of that history, and the table stays within
        its capacity. */
    method Dispatch(key: Key, now: Time) returns (d: Decision)
      requires Valid() && last <= now
      modifies this
      ensures Valid() && last == now
      ensures d == Decide(old(history), limit, capacity, key, now)
      ensures history == old(history) + (if d == Accept then [Hit(key, now)] else [])
      ensures d == LimitExceeded ==> Queue(requests, key) == Recent(Times(history, key), now)
      ensures d == Accept ==> Queue(requests, key) == Recent(Times(old(history), key), now) + [now]
    {
      TimePasses(requests, history, limit, last, now);
      last := now;
      LiveAreTracked(requests, history, limit, now);
      if |requests| >= capacity {
        var kept := map k | k in requests && !Idle(requests[k], now) :: requests[k];
        EvictKeepsInv(requests, history, limit, now, kept);
        requests := kept;
        if |requests| >= capacity {
          assert |requests| == |requests.Keys|;
          KeptSize(kept, old(requests));
          return AtCapacity;
        }
        assert |requests| == |requests.Keys|;
      }
      var queue := if key in requests then requests[key] else [];
      assert KeyInv(requests, history, limit, now, key);
      var entries := Trim(queue, now, Times(history, key));
      assert |requests[key := entries]| <= |requests| + 1 && |requests[key := entries + [now]]| <= |requests| + 1;
      if |entries| >= limit {
        TrimKeepsInv(requests, history, limit, now, key, entries);
        requests := requests[key := entries];
        return LimitExceeded;
      }
      AcceptKeepsInv(requests, history, limit, now, key, entries);
      requests := requests[key := entries + [now]];
      history := history + [Hit(key, now)];
      d := Accept;
    }
  }

  lemma KeptSize(kept: map<Key, seq<Time>>, requests: map<Key, seq<Time>>)
    requires kept.Keys <= requests.Keys
    ensures |kept| <= |requests|
  {
    SubsetSize(kept.Keys, requests.Keys);
    assert |kept| == |kept.Keys| && |requests| == |requests.Keys|;
  }
}
