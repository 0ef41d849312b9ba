/** The fixed-window rate limiter (src/utils/rate-limiter.util.ts): per key, a request
    count and the time its window ends. The clock is the `now` parameter (milliseconds);
    the background sweep timer is not modelled, and `Cleanup` is an ordinary method. */
module RateLimiting {
  import opened Wrappers

  /** A key's current window: requests admitted so far and when the window ends. */
  datatype RateEntry = RateEntry(count: int, resetTime: int)

  /** What isAllowed answers and the entry it leaves under the key. */
  datatype Decision = Decision(allowed: bool, entry: RateEntry)

  function Max(a: int, b: int): int {
    if a < b then b else a
  }

  /** isAllowed on the key's entry (None when the key has none). A new or expired window
      restarts at count 1 and admits; a full window rejects and is left as it was;
      otherwise the count goes up by one. */
  function Decide(e: Option<RateEntry>, now: int, maxRequests: int, windowMs: int): Decision {
    if e.None? then Decision(true, RateEntry(1, now + windowMs))
    else if now > e.value.resetTime then Decision(true, RateEntry(1, now + windowMs))
    else if e.value.count >= maxRequests then Decision(false, e.value)
    else Decision(true, e.value.(count := e.value.count + 1))
  }

  /** The count bound every stored entry keeps. */
  predicate CountInBounds(e: RateEntry, maxRequests: int) {
    1 <= e.count <= Max(1, maxRequests)
  }

  /** Each decision keeps the count in [1, max(1, maxRequests)]: with maxRequests >= 1
      the count never exceeds the limit. */
  lemma DecidePreservesBounds(e: Option<RateEntry>, now: int, maxRequests: int, windowMs: int)
    requires e.Some? ==> CountInBounds(e.value, maxRequests)
    ensures CountInBounds(Decide(e, now, maxRequests, windowMs).entry, maxRequests)
  {
  }

  /** A rejection leaves the entry unchanged, and an admission inside the window keeps
      the window's end and adds exactly one to the count. */
  lemma DecideInsideWindow(e: RateEntry, now: int, maxRequests: int, windowMs: int)
    requires now <= e.resetTime
    ensures var d := Decide(Some(e), now, maxRequests, windowMs);
            && (d.allowed <==> e.count < maxRequests)
            && d.entry.resetTime == e.resetTime
            && d.entry.count == (if d.allowed then e.count + 1 else e.count)
  {
  }

  /** The number of requests admitted when requests arrive at `times`, one after another,
      starting from entry `e`. */
  function AdmittedFrom(e: RateEntry, times: seq<int>, maxRequests: int, windowMs: int): nat
    decreases |times|
  {
    if times == [] then 0
    else
      var d := Decide(Some(e), times[0], maxRequests, windowMs);
      (if d.allowed then 1 else 0) + AdmittedFrom(d.entry, times[1..], maxRequests, windowMs)
  }

  /** Inside a window that has already admitted `e.count` requests, at most
      maxRequests - e.count more are admitted. */
  lemma {:induction false} AdmittedInsideWindow(e: RateEntry, times: seq<int>, maxRequests: int, windowMs: int)
    requires forall i :: 0 <= i < |times| ==> times[i] <= e.resetTime
    ensures AdmittedFrom(e, times, maxRequests, windowMs) <= Max(0, maxRequests - e.count)
    decreases |times|
  {
    if times != [] {
      var d := Decide(Some(e), times[0], maxRequests, windowMs);
      DecideInsideWindow(e, times[0], maxRequests, windowMs);
      AdmittedInsideWindow(d.entry, times[1..], maxRequests, windowMs);
    }
  }

  /** Within one window at most maxRequests requests are admitted (one, if the limit is
      below one): the request at `start` that opens the window — on a key with no entry
      or an expired one — and every later request up to the window's end. */
  lemma WindowAdmitsAtMostMax(e: Option<RateEntry>, start: int, times: seq<int>, maxRequests: int, windowMs: int)
    requires e.None? || start > e.value.resetTime
    requires forall i :: 0 <= i < |times| ==> times[i] <= start + windowMs
    ensures var first := Decide(e, start, maxRequests, windowMs);
            first.allowed &&
            1 + AdmittedFrom(first.entry, times, maxRequests, windowMs) <= Max(1, maxRequests)
  {
    var first := Decide(e, start, maxRequests, windowMs);
    AdmittedInsideWindow(first.entry, times, maxRequests, windowMs);
  }

  /** getRemaining on the key's entry. */
  function Remaining(e: Option<RateEntry>, now: int, maxRequests: int): (r: int)
    ensures maxRequests >= 0 && (e.Some? ==> e.value.count >= 0) ==> 0 <= r <= maxRequests
  {
    if e.None? then maxRequests
    else if now > e.value.resetTime then maxRequests
    else Max(0, maxRequests - e.value.count)
  }

  /** With a limit of at least one, a request is admitted exactly when getRemaining, asked
      at the same instant, reports a request left. */
  lemma AllowedIffRemaining(e: Option<RateEntry>, now: int, maxRequests: int, windowMs: int)
    requires maxRequests >= 1
    ensures Decide(e, now, maxRequests, windowMs).allowed <==> Remaining(e, now, maxRequests) > 0
  {
  }

  /** The store after cleanup: exactly the entries whose window has not ended. */
  function Sweep(store: map<string, RateEntry>, now: int): map<string, RateEntry> {
    map k | k in store && !(now > store[k].resetTime) :: store[k]
  }

  /** The sweep changes no later decision: an entry it removes would have been restarted
      anyway, exactly as a missing one is. */
  lemma DecideAfterSweep(store: map<string, RateEntry>, key: string, now: int, later: int,
                         maxRequests: int, windowMs: int)
    requires now <= later
    ensures var before := if key in store then Some(store[key]) else None;
            var swept := Sweep(store, now);
            var after := if key in swept then Some(swept[key]) else None;
            Decide(after, later, maxRequests, windowMs) == Decide(before, later, maxRequests, windowMs)
  {
  }

  class RateLimiter {
    const maxRequests: int
    const windowMs: int
    var store: map<string, RateEntry>

    /** Every stored count lies in [1, max(1, maxRequests)]. */
    ghost predicate Valid()
      reads this
    {
      forall k :: k in store ==> CountInBounds(store[k], maxRequests)
    }

    constructor (maxRequests: int := 100, windowMs: int := 60000)
      ensures this.maxRequests == maxRequests && this.windowMs == windowMs
      ensures store == map[] && Valid()
    {
      this.maxRequests := maxRequests;
      this.windowMs := windowMs;
      store := map[];
    }

    function Entry(key: string): Option<RateEntry>
      reads this
    {
      if key in store then Some(store[key]) else None
    }

    /** isAllowed: admits or rejects one request for `key`, changing only that key. */
    method IsAllowed(key: string, now: int) returns (allowed: bool)
      requires Valid()
      modifies this
      ensures Valid()
      ensures var d := Decide(old(Entry(key)), now, maxRequests, windowMs);
              allowed == d.allowed && store == old(store)[key := d.entry]
    {
      DecidePreservesBounds(Entry(key), now, maxRequests, windowMs);
      if key !in store {
        store := store[key := RateEntry(1, now + windowMs)];
        return true;
      }
      var entry := store[key];
      if now > entry.resetTime {
        store := store[key := entry.(count := 1, resetTime := now + windowMs)];
        return true;
      }
      if entry.count >= maxRequests {
        return false;
      }
      store := store[key := entry.(count := entry.count + 1)];
      allowed := true;
    }

    /** getRemaining: requests still admitted in the key's window. */
    method GetRemaining(key: string, now: int) returns (remaining: int)
      requires Valid()
      ensures remaining == Remaining(Entry(key), now, maxRequests)
      ensures maxRequests >= 0 ==> 0 <= remaining <= maxRequests
    {
      if key !in store {
        return maxRequests;
      }
      var entry := store[key];
      if now > entry.resetTime {
        return maxRequests;
      }
      remaining := if 0 < maxRequests - entry.count then maxRequests - entry.count else 0;
    }

    /** getResetTime: the stored end of the window, even one that has passed; for an
        unknown key, the end a window opened now would have. */
    method GetResetTime(key: string, now: int) returns (t: int)
      ensures key in store ==> t == store[key].resetTime
      ensures key !in store ==> t == now + windowMs
    {
      if key !in store {
        return now + windowMs;
      }
      t := store[key].resetTime;
    }

    method Reset(key: string)
      requires Valid()
      modifies this
      ensures Valid()
      ensures store == old(store) - {key}
    {
      store := store - {key};
    }

    /** cleanup: one pass over the entries, deleting each whose window has ended. */
    method Cleanup(now: int)
      requires Valid()
      modifies this
      ensures Valid()
      ensures store == Sweep(old(store), now)
    {
      var pending := store.Keys;
      while pending != {}
        invariant pending <= old(store).Keys
        invariant forall k :: k in pending ==> k in store
        invariant forall k :: k in store ==> k in old(store) && store[k] == old(store)[k]
        invariant forall k :: k in old(store) && k !in pending ==>
                    (k in store <==> !(now > old(store)[k].resetTime))
        decreases |pending|
      {
        var k :| k in pending;
        if now > store[k].resetTime {
          store := store - {k};
        }
        pending := pending - {k};
      }
      assert store.Keys == Sweep(old(store), now).Keys;
    }

    method Clear()
      modifies this
      ensures Valid()
      ensures store == map[]
    {
      store := map[];
    }
  }

  /** The four limiters the application configures: default 100, strict 10, fund 20 and
      transfer 10 requests, each per 60000 ms window. */
  method ConfiguredLimiters() returns (default: RateLimiter, strict: RateLimiter,
                                       fund: RateLimiter, transfer: RateLimiter)
    ensures default.maxRequests == 100 && default.windowMs == 60000
    ensures strict.maxRequests == 10 && strict.windowMs == 60000
    ensures fund.maxRequests == 20 && fund.windowMs == 60000
    ensures transfer.maxRequests == 10 && transfer.windowMs == 60000
    ensures fresh(default) && fresh(strict) && fresh(fund) && fresh(transfer)
    ensures default.store == map[] && strict.store == map[] && fund.store == map[] && transfer.store == map[]
  {
    default := new RateLimiter(100, 60000);
    strict := new RateLimiter(10, 60000);
    fund := new RateLimiter(20, 60000);
    transfer := new RateLimiter(10, 60000);
  }
}
