/**
 * The in-memory per-address rate limit of `api/ai.js`: a table from client
 * address to the start of its current 60-second window and the number of
 * requests seen in it. `pruneRateBuckets` drops stale windows and
 * `incrementRate` counts one request. Times are milliseconds, as `Date.now()`
 * returns them, and are passed in.
 */
module RateLimit {

  /** The window length, `60_000` milliseconds. */
  const Window: int := 60000

  /** `{ windowStart, count }`. */
  datatype Bucket = Bucket(windowStart: int, count: int)

  /** A window that started more than `Window` milliseconds before `now` is stale. */
  predicate Stale(b: Bucket, now: int) {
    now - b.windowStart > Window
  }

  /** The table once every stale window has been dropped. */
  function Live(t: map<string, Bucket>, now: int): (r: map<string, Bucket>)
    ensures forall ip :: ip in r <==> ip in t && !Stale(t[ip], now)
    ensures forall ip :: ip in r ==> r[ip] == t[ip]
  {
    map ip | ip in t && !Stale(t[ip], now) :: t[ip]
  }

  /**
   * The table after one request from `ip` at `now`: a fresh window with count 1
   * when `ip` has none or a stale one, else one more in the current window.
   */
  function Bump(t: map<string, Bucket>, ip: string, now: int): (r: map<string, Bucket>)
    ensures r.Keys == t.Keys + {ip}
    ensures ip !in t || Stale(t[ip], now) ==> r[ip] == Bucket(now, 1)
    ensures ip in t && !Stale(t[ip], now) ==> r[ip] == Bucket(t[ip].windowStart, t[ip].count + 1)
    ensures forall other :: other in t && other != ip ==> r[other] == t[other]
  {
    if ip !in t || Stale(t[ip], now) then t[ip := Bucket(now, 1)]
    else t[ip := Bucket(t[ip].windowStart, t[ip].count + 1)]
  }

  /** Pruning twice at the same time drops nothing more. */
  lemma LiveIdempotent(t: map<string, Bucket>, now: int)
    ensures Live(Live(t, now), now) == Live(t, now)
  {
  }

  /** A window that survives pruning at a later time survives pruning at an earlier one. */
  lemma LiveMonotone(t: map<string, Bucket>, earlier: int, later: int)
    requires earlier <= later
    ensures Live(t, later).Keys <= Live(t, earlier).Keys
  {
  }

  /** Every count in a table built by requests is positive. */
  predicate Counted(t: map<string, Bucket>) {
    forall ip :: ip in t ==> t[ip].count >= 1
  }

  lemma BumpCounted(t: map<string, Bucket>, ip: string, now: int)
    requires Counted(t)
    ensures Counted(Bump(t, ip, now)) && Bump(t, ip, now)[ip].count >= 1
  {
  }

  /** The table after a run of requests from one address, each pruning first. */
  function Replay(t: map<string, Bucket>, ip: string, times: seq<int>): (r: map<string, Bucket>)
    ensures |times| > 0 ==> ip in r
    decreases |times|
  {
    if |times| == 0 then t
    else
      var last := times[|times| - 1];
      Bump(Live(Replay(t, ip, times[..|times| - 1]), last), ip, last)
  }

  /**
   * Requests from an address with no live window, all within one window of
   * the first, make up one window whose count is the number of requests: the
   * `k`-th request in a window sees count `k`.
   */
  lemma {:induction false} ReplayCounts(t: map<string, Bucket>, ip: string, times: seq<int>)
    requires |times| > 0
    requires ip !in t || Stale(t[ip], times[0])
    requires forall i :: 0 <= i < |times| ==> times[0] <= times[i] <= times[0] + Window
    ensures Replay(t, ip, times)[ip] == Bucket(times[0], |times|)
    decreases |times|
  {
    var init := times[..|times| - 1];
    var last := times[|times| - 1];
    if |init| > 0 {
      ReplayCounts(t, ip, init);
      assert Replay(t, ip, init)[ip] == Bucket(times[0], |init|);
      assert !Stale(Replay(t, ip, init)[ip], last);
    } else {
      assert Replay(t, ip, init) == t;
      assert last == times[0];
    }
  }

  /** The handler's table, `__rateState.buckets`. */
  class RateTable {
    var buckets: map<string, Bucket>

    constructor ()
      ensures buckets == map[]
    {
      buckets := map[];
    }

    /** `pruneRateBuckets(now)`: every stale window is deleted and every other entry kept as it is. */
    method Prune(now: int)
      modifies this
      ensures buckets == Live(old(buckets), now)
    {
      var keys := buckets.Keys;
      ghost var start := buckets;
      while keys != {}
        invariant keys <= start.Keys
        invariant buckets.Keys <= start.Keys
        invariant forall ip :: ip in keys ==> ip in buckets
        invariant forall ip :: ip in buckets ==> buckets[ip] == start[ip]
        invariant forall ip :: ip in start && ip !in keys ==> (ip in buckets <==> !Stale(start[ip], now))
        decreases keys
      {
        var ip :| ip in keys;
        if Stale(buckets[ip], now) {
          buckets := buckets - {ip};
        }
        keys := keys - {ip};
      }
    }

    /** `incrementRate(ip, now)`: the request counted in `ip`'s window, whose new count is returned. */
    method Increment(ip: string, now: int) returns (count: int)
      modifies this
      ensures buckets == Bump(old(buckets), ip, now)
      ensures count == buckets[ip].count
    {
      var rec: Bucket;
      if ip !in buckets || now - buckets[ip].windowStart > Window {
        rec := Bucket(now, 0);
      } else {
        rec := buckets[ip];
      }
      rec := rec.(count := rec.count + 1);
      buckets := buckets[ip := rec];
      count := rec.count;
    }

    /**
     * The handler's check when the limit is on: prune, count the request, and
     * refuse it with 429 when the count exceeds the limit.
     */
    method Admit(ip: string, now: int, rateLimit: int) returns (limited: bool)
      requires rateLimit > 0
      modifies this
      ensures buckets == Bump(Live(old(buckets), now), ip, now)
      ensures limited <==> buckets[ip].count > rateLimit
    {
      Prune(now);
      var count := Increment(ip, now);
      limited := count > rateLimit;
    }
  }
}
