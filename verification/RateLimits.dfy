/** The sliding-window request limiter of the API. */
module RateLimits {
  import opened Wrappers

  const WINDOW := 60.0

  // ----- One request -----

  /** Drops what has left the window from the front of a bucket. */
  function Expire(bucket: seq<real>, now: real): seq<real> {
    if bucket != [] && now - bucket[0] > WINDOW then Expire(bucket[1..], now) else bucket
  }

  predicate Accepts(limit: int, bucket: seq<real>, now: real) { |Expire(bucket, now)| < limit }

  function Serve(limit: int, bucket: seq<real>, now: real): seq<real> {
    Expire(bucket, now) + if Accepts(limit, bucket, now) then [now] else []
  }

  function KeyOf(host: Option<string>, path: string): string {
    (if host.Some? then host.value else "unknown") + ":" + path
  }

  function ClientName(host: Option<string>): string { if host.Some? then host.value else "unknown" }

  /** Two requests share a bucket exactly when client and path are the same; no host name holds a slash. */
  lemma KeysCoincide(h: Option<string>, p: string, g: Option<string>, q: string)
    requires '/' !in ClientName(h) && '/' !in ClientName(g)
    requires p != "" && q != "" && p[0] == '/' && q[0] == '/'
    ensures KeyOf(h, p) == KeyOf(g, q) <==> ClientName(h) == ClientName(g) && p == q
  {
    var m, n := ClientName(h), ClientName(g);
    var key := KeyOf(h, p);
    if key == KeyOf(g, q) {
      FirstSlash(m, p);
      FirstSlash(n, q);
      assert key[|m| + 1] == '/' && key[|n| + 1] == '/';
      assert key[..|m|] == m && key[..|n|] == n;
      assert key[|m| + 1..] == p && key[|n| + 1..] == q;
    }
  }

  lemma FirstSlash(name: string, path: string)
    requires '/' !in name
    ensures forall i | 0 <= i <= |name| :: (name + ":" + path)[i] != '/'
  {
  }

  function BucketAt(events: map<string, seq<real>>, key: string): seq<real> {
    if key in events then events[key] else []
  }

  class RateLimiter {
    const limit: int
    var events: map<string, seq<real>>
    /** Every request so far, for any key. */
    ghost var history: seq<Request>

    constructor (limit: int)
      ensures this.limit == limit && events == map[] && history == [] && Valid()
    {
      this.limit, events, history := limit, map[], [];
    }

    /** Each bucket is what the history of requests made it. */
    ghost predicate Valid()
      reads this
    {
      forall key :: BucketAt(events, key) == Bucket(limit, history, key)
    }

    /** Answers one request; a rejection still forgets what has expired. */
    method Call(host: Option<string>, path: string, now: real) returns (accepted: bool)
      requires Valid()
      modifies this
      ensures Valid() && history == old(history) + [Request(KeyOf(host, path), now)]
      ensures accepted <==> Accepts(limit, BucketAt(old(events), KeyOf(host, path)), now)
      ensures events == old(events)[KeyOf(host, path) := Serve(limit, BucketAt(old(events), KeyOf(host, path)), now)]
    {
      var key := KeyOf(host, path);
      var bucket := BucketAt(events, key);
      while bucket != [] && now - bucket[0] > WINDOW
        invariant Expire(bucket, now) == Expire(BucketAt(old(events), key), now)
        decreases |bucket|
      {
        bucket := bucket[1..];
      }
      accepted := |bucket| < limit;
      events := events[key := bucket + if accepted then [now] else []];
      history := history + [Request(key, now)];
      assert history[..|history| - 1] == old(history);
    }
  }

  // ----- All requests -----

  datatype Request = Request(key: string, now: real)

  predicate ClockGrows(h: seq<Request>) { forall i, k | 0 <= i < k < |h| :: h[i].now <= h[k].now }

  /** The bucket of one key after a history of requests for any keys. */
  function Bucket(limit: int, h: seq<Request>, key: string): seq<real> {
    if h == [] then []
    else
      var b, last := Bucket(limit, h[..|h| - 1], key), h[|h| - 1];
      if last.key == key then Serve(limit, b, last.now) else b
  }

  /** When the accepted requests of one key came. */
  function Accepted(limit: int, h: seq<Request>, key: string): seq<real> {
    if h == [] then []
    else
      var times, last := Accepted(limit, h[..|h| - 1], key), h[|h| - 1];
      if last.key == key && Accepts(limit, Bucket(limit, h[..|h| - 1], key), last.now) then times + [last.now]
      else times
  }

  /** The last request for a key, accepted or not. */
  function LastCall(h: seq<Request>, key: string): Option<real> {
    if h == [] then None
    else if h[|h| - 1].key == key then Some(h[|h| - 1].now)
    else LastCall(h[..|h| - 1], key)
  }

  /** `bucket` is exactly the part of `times` that lies in the last window at `now`. */
  ghost predicate HoldsWindow(bucket: seq<real>, times: seq<real>, now: real) {
    && |bucket| <= |times|
    && times[|times| - |bucket|..] == bucket
    && (forall i | 0 <= i < |times| - |bucket| :: now - times[i] > WINDOW)
    && (forall i | |times| - |bucket| <= i < |times| :: now - times[i] <= WINDOW)
  }

  predicate Ascending(times: seq<real>, now: real) {
    && (forall i, k | 0 <= i < k < |times| :: times[i] <= times[k])
    && (forall i | 0 <= i < |times| :: times[i] <= now)
  }

  /** Expiring a window at a later time leaves the window at that time. */
  lemma {:induction false} ExpireMovesWindow(bucket: seq<real>, times: seq<real>, before: real, now: real)
    requires HoldsWindow(bucket, times, before) && Ascending(times, before) && before <= now
    ensures HoldsWindow(Expire(bucket, now), times, now)
    decreases |bucket|
  {
    if bucket != [] {
      var n := |times| - |bucket|;
      assert times[n] == bucket[0];
      if now - bucket[0] > WINDOW {
        ExpireFrom(bucket[1..], times, now);
      }
    }
  }

  lemma {:induction false} ExpireFrom(bucket: seq<real>, times: seq<real>, now: real)
    requires |bucket| <= |times| && times[|times| - |bucket|..] == bucket && Ascending(times, now)
    requires forall i | 0 <= i < |times| - |bucket| :: now - times[i] > WINDOW
    ensures HoldsWindow(Expire(bucket, now), times, now)
    decreases |bucket|
  {
    if bucket != [] {
      assert times[|times| - |bucket|] == bucket[0];
      if now - bucket[0] > WINDOW {
        ExpireFrom(bucket[1..], times, now);
      }
    }
  }

  lemma {:induction false} LastCallIsNotLater(h: seq<Request>, key: string)
    requires ClockGrows(h)
    ensures LastCall(h, key).Some? ==> h != [] && LastCall(h, key).value <= h[|h| - 1].now
  {
    if h != [] && h[|h| - 1].key != key {
      LastCallIsNotLater(h[..|h| - 1], key);
    }
  }

  /** At the last request for a key its bucket is exactly the accepted requests not yet expired. */
  lemma {:induction false} BucketIsTheWindow(limit: int, h: seq<Request>, key: string)
    requires ClockGrows(h)
    ensures
      match LastCall(h, key)
      case None => Bucket(limit, h, key) == [] && Accepted(limit, h, key) == []
      case Some(now) =>
        && Ascending(Accepted(limit, h, key), now)
        && HoldsWindow(Bucket(limit, h, key), Accepted(limit, h, key), now)
  {
    if h != [] {
      var p, last := h[..|h| - 1], h[|h| - 1];
      BucketIsTheWindow(limit, p, key);
      if last.key == key {
        var bucket, times := Bucket(limit, p, key), Accepted(limit, p, key);
        LastCallIsNotLater(p, key);
        WindowAt(LastCall(p, key), bucket, times, last.now);
        WindowGrows(Expire(bucket, last.now), times, last.now);
        assert Expire(bucket, last.now) + [] == Expire(bucket, last.now);
      }
    }
  }

  /** What is known of one key's bucket and accepted requests when its last request came, if any. */
  ghost predicate KeyOk(last: Option<real>, bucket: seq<real>, times: seq<real>) {
    match last
    case None => bucket == [] && times == []
    case Some(before) => Ascending(times, before) && HoldsWindow(bucket, times, before)
  }

  lemma WindowAt(last: Option<real>, bucket: seq<real>, times: seq<real>, now: real)
    requires KeyOk(last, bucket, times) && (last.Some? ==> last.value <= now)
    ensures HoldsWindow(Expire(bucket, now), times, now) && Ascending(times, now)
  {
    if last.Some? {
      ExpireMovesWindow(bucket, times, last.value, now);
    }
  }

  lemma WindowGrows(bucket: seq<real>, times: seq<real>, now: real)
    requires HoldsWindow(bucket, times, now) && Ascending(times, now)
    ensures HoldsWindow(bucket + [now], times + [now], now) && Ascending(times + [now], now)
  {
  }

  /** How many of the times lie in the minute that ends at `now`. */
  function Recent(times: seq<real>, now: real): nat {
    if times == [] then 0
    else Recent(times[..|times| - 1], now) + if now - times[|times| - 1] <= 60.0 then 1 else 0
  }

  lemma {:induction false} WindowCounts(bucket: seq<real>, times: seq<real>, now: real)
    requires HoldsWindow(bucket, times, now)
    ensures |bucket| == Recent(times, now)
  {
    if times != [] {
      if bucket == [] {
        WindowCounts(bucket, times[..|times| - 1], now);
      } else {
        assert times[|times| - |bucket|..][..|bucket| - 1] == times[..|times| - 1][|times| - |bucket|..];
        WindowCounts(bucket[..|bucket| - 1], times[..|times| - 1], now);
      }
    }
  }

  /** A request is accepted exactly when fewer than `limit` accepted ones lie in its last minute. */
  lemma AcceptedExactly(limit: int, h: seq<Request>, key: string, now: real)
    requires ClockGrows(h + [Request(key, now)])
    ensures Accepts(limit, Bucket(limit, h, key), now) <==> Recent(Accepted(limit, h, key), now) < limit
  {
    var longer := h + [Request(key, now)];
    assert longer[..|h|] == h;
    assert forall i | 0 <= i < |h| :: h[i] == longer[i];
    assert ClockGrows(h);
    BucketIsTheWindow(limit, h, key);
    LastCallIsNotLater(h, key);
    if h != [] { assert longer[|h| - 1].now <= longer[|h|].now; }
    WindowAt(LastCall(h, key), Bucket(limit, h, key), Accepted(limit, h, key), now);
    WindowCounts(Expire(Bucket(limit, h, key), now), Accepted(limit, h, key), now);
  }

  /** Accepted requests that lie within one minute of each other number at most `limit`. */
  lemma {:induction false} NoWindowExceedsLimit(limit: int, h: seq<Request>, key: string, i: nat, k: nat)
    requires ClockGrows(h)
    requires i <= k < |Accepted(limit, h, key)|
    requires Accepted(limit, h, key)[k] - Accepted(limit, h, key)[i] <= 60.0
    ensures k - i + 1 <= limit
  {
    var p, last := h[..|h| - 1], h[|h| - 1];
    var times := Accepted(limit, p, key);
    if k < |times| {
      NoWindowExceedsLimit(limit, p, key, i, k);
    } else {
      BucketIsTheWindow(limit, p, key);
      LastCallIsNotLater(p, key);
      WindowAt(LastCall(p, key), Bucket(limit, p, key), times, last.now);
    }
  }
}
