/** The fixed-window rate limiter: a map from client key to the number of
    calls admitted in the key's current window and the instant that window
    ends. The clock is not read here: every call is given its `now` in
    milliseconds. */
module RateLimit {
  import opened JsValues

  /** Above this many keys, a call first sweeps out expired entries. */
  const SweepThreshold := 1000

  /** `count` calls admitted in a window that ends at `resetTime`. */
  datatype Entry = Entry(count: int, resetTime: int)

  /** What `check` returns: whether the call is admitted, how many further
      calls the window admits, and when the window ends. */
  datatype CheckResult = CheckResult(success: bool, remaining: int, reset: int)

  /** The entry stored for the key after a call, and the call's result. */
  datatype Decision = Decision(entry: Entry, result: CheckResult)

  function Lookup(cache: map<string, Entry>, key: string): Option<Entry>
  {
    if key in cache then Some(cache[key]) else None
  }

  /** An entry's window is still open at `now`. */
  predicate Live(e: Entry, now: int)
  {
    now < e.resetTime
  }

  /** The count bound every stored entry keeps: at least one admitted call,
      and no more than `limit` of them (a limit below one still admits the
      first call of each window). */
  predicate CountInRange(e: Entry, limit: int)
  {
    1 <= e.count <= (if limit < 1 then 1 else limit)
  }

  /** The three-way decision of `check` for a key whose entry, read before any
      sweep, is `entry`. */
  function Admit(entry: Option<Entry>, now: int, interval: int, limit: int): (d: Decision)
    // A missing or expired entry opens a new window holding this one call.
    ensures (entry.None? || !Live(entry.value, now)) ==>
              d.entry == Entry(1, now + interval) && d.result.success
    // A live entry is never replaced: its window end is kept.
    ensures entry.Some? && Live(entry.value, now) ==> d.entry.resetTime == entry.value.resetTime
    // A refused call leaves the entry as it was: it is not counted.
    ensures !d.result.success <==> entry.Some? && Live(entry.value, now) && entry.value.count >= limit
    ensures !d.result.success ==> d.entry == entry.value && d.result.remaining == 0
    // An admitted call on a live entry counts exactly once.
    ensures d.result.success && entry.Some? && Live(entry.value, now) ==>
              d.entry.count == entry.value.count + 1
    // What the caller is told agrees with what is stored.
    ensures d.result.success ==> d.result.remaining == limit - d.entry.count
    ensures d.result.reset == d.entry.resetTime
    // The count bound is kept, so `remaining` stays within 0..limit-1.
    ensures limit >= 1 && (entry.Some? ==> CountInRange(entry.value, limit)) ==>
              CountInRange(d.entry, limit) && 0 <= d.result.remaining < limit
  {
    if entry.None? || now >= entry.value.resetTime then
      Decision(Entry(1, now + interval), CheckResult(true, limit - 1, now + interval))
    else if entry.value.count >= limit then
      Decision(entry.value, CheckResult(false, 0, entry.value.resetTime))
    else
      var e := entry.value.(count := entry.value.count + 1);
      Decision(e, CheckResult(true, limit - e.count, e.resetTime))
  }

  /** The entries whose window is still open at `now`. */
  ghost function Unexpired(cache: map<string, Entry>, now: int): map<string, Entry>
  {
    map k | k in cache && Live(cache[k], now) :: cache[k]
  }

  /** The map a call works on after its housekeeping step: swept only when it
      holds more than `SweepThreshold` keys. */
  ghost function Housekeep(cache: map<string, Entry>, now: int): map<string, Entry>
  {
    if |cache| > SweepThreshold then Unexpired(cache, now) else cache
  }

  /** The cleanup sweep: visits every entry and deletes those whose window has
      ended. Exactly the expired entries go; every live entry stays, unchanged. */
  method SweepExpired(cache: map<string, Entry>, now: int) returns (swept: map<string, Entry>)
    ensures forall k :: k in swept <==> k in cache && Live(cache[k], now)
    ensures forall k :: k in swept ==> swept[k] == cache[k]
  {
    swept := cache;
    var unvisited := cache.Keys;
    while unvisited != {}
      invariant unvisited <= cache.Keys
      invariant forall k :: k in swept <==> k in cache && (k in unvisited || Live(cache[k], now))
      invariant forall k :: k in swept ==> swept[k] == cache[k]
      decreases unvisited
    {
      var k :| k in unvisited;
      if now >= cache[k].resetTime {
        swept := swept - {k};
      }
      unvisited := unvisited - {k};
    }
  }

  /** One limiter instance: `rateLimit({interval, limit})` and the map its
      `check` closure owns. */
  class Limiter {
    const interval: int
    const limit: int
    var cache: map<string, Entry>

    ghost predicate Valid()
      reads this
    {
      forall k :: k in cache ==> CountInRange(cache[k], limit)
    }

    constructor (interval: int, limit: int)
      ensures Valid()
      ensures this.interval == interval && this.limit == limit && cache == map[]
    {
      this.interval := interval;
      this.limit := limit;
      cache := map[];
    }

    /** `check(key)` at time `now`. */
    method Check(key: string, now: int) returns (r: CheckResult)
      requires Valid()
      modifies this
      ensures Valid()
      ensures var d := Admit(Lookup(old(cache), key), now, interval, limit);
              r == d.result && cache == Housekeep(old(cache), now)[key := d.entry]
      // Apart from the sweep, no other key's entry is touched.
      ensures forall k :: k != key && k in cache ==> k in old(cache) && cache[k] == old(cache)[k]
      ensures |old(cache)| <= SweepThreshold ==>
                forall k :: k != key ==> (k in cache <==> k in old(cache))
      // The sweep never removes an entry whose window is open.
      ensures forall k :: k in old(cache) && Live(old(cache)[k], now) ==> k in cache
      ensures limit >= 1 ==> 0 <= r.remaining < limit
    {
      var entry := Lookup(cache, key);
      ghost var d := Admit(entry, now, interval, limit);

      if |cache| > SweepThreshold {
        cache := SweepExpired(cache, now);
        assert cache == Unexpired(old(cache), now);
      }

      if entry.None? || now >= entry.value.resetTime {
        cache := cache[key := Entry(1, now + interval)];
        return CheckResult(true, limit - 1, now + interval);
      }

      if entry.value.count >= limit {
        assert key in cache && cache[key] == entry.value;
        assert cache == cache[key := d.entry];
        return CheckResult(false, 0, entry.value.resetTime);
      }

      var e := entry.value.(count := entry.value.count + 1);
      cache := cache[key := e];
      r := CheckResult(true, limit - e.count, e.resetTime);
    }
  }

  // -----------------------------------------------------------------------
  // Sequential calls on one key
  // -----------------------------------------------------------------------

  /** The results of calls on one key at the instants `times`, in order,
      starting from the key's entry `entry`, with no call on another key in
      between (such a call may sweep this key's expired entry away). */
  function Replay(entry: Option<Entry>, times: seq<int>, interval: int, limit: int): (rs: seq<CheckResult>)
    ensures |rs| == |times|
    decreases |times|
  {
    if times == [] then []
    else
      var d := Admit(entry, times[0], interval, limit);
      [d.result] + Replay(Some(d.entry), times[1..], interval, limit)
  }

  /** Within a window already holding `count` calls, the i-th further call
      is admitted exactly when fewer than `limit` calls came before it, and
      every call reports the same window end. */
  lemma {:induction false} ReplayWithinWindow(count: int, resetTime: int, times: seq<int>, interval: int, limit: int)
    requires forall i :: 0 <= i < |times| ==> times[i] < resetTime
    ensures forall i :: 0 <= i < |times| ==>
              var r := Replay(Some(Entry(count, resetTime)), times, interval, limit)[i];
              (r.success <==> count + i < limit) && r.reset == resetTime
    decreases |times|
  {
    if times != [] {
      var d := Admit(Some(Entry(count, resetTime)), times[0], interval, limit);
      var rs := Replay(Some(Entry(count, resetTime)), times, interval, limit);
      var next := if count >= limit then count else count + 1;
      assert d.entry == Entry(next, resetTime);
      var tail := Replay(Some(d.entry), times[1..], interval, limit);
      assert rs == [d.result] + tail;
      ReplayWithinWindow(next, resetTime, times[1..], interval, limit);
      forall i | 1 <= i < |times|
        ensures (rs[i].success <==> count + i < limit) && rs[i].reset == resetTime
      {
        assert rs[i] == tail[i - 1];
        assert tail[i - 1].success <==> next + (i - 1) < limit;
      }
    }
  }

  /** A window opened at `start` admits its opening call and then exactly
      `limit - 1` more: of the calls made before it ends, the i-th (from 0) is
      admitted exactly when i < limit (the opening call is admitted even when
      the limit is below one). With a limit of 5, the sixth call is refused. */
  lemma WindowAdmitsAtMostLimit(entry: Option<Entry>, start: int, times: seq<int>, interval: int, limit: int)
    requires entry.None? || !Live(entry.value, start)
    requires forall i :: 0 <= i < |times| ==> times[i] < start + interval
    ensures var rs := Replay(entry, [start] + times, interval, limit);
            forall i :: 0 <= i < |rs| ==> (rs[i].success <==> i == 0 || i < limit)
  {
    var rs := Replay(entry, [start] + times, interval, limit);
    assert ([start] + times)[1..] == times;
    var d := Admit(entry, start, interval, limit);
    assert d.entry == Entry(1, start + interval) && d.result.success;
    var tail := Replay(Some(d.entry), times, interval, limit);
    assert rs == [d.result] + tail;
    ReplayWithinWindow(1, start + interval, times, interval, limit);
    forall i | 1 <= i < |rs|
      ensures rs[i].success <==> i < limit
    {
      assert rs[i] == tail[i - 1];
      assert tail[i - 1].success <==> 1 + (i - 1) < limit;
    }
  }

  /** Once a window has ended, the next call is admitted and opens a new window
      of one call, whatever the old count was. */
  lemma ExpiredWindowStartsOver(e: Entry, now: int, interval: int, limit: int)
    requires !Live(e, now)
    ensures Admit(Some(e), now, interval, limit) ==
            Decision(Entry(1, now + interval), CheckResult(true, limit - 1, now + interval))
  {
  }
}
