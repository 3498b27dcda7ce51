/**
 * The two fixed-window rate limiters: requests per address in front of every route, and requests per API key.
 * They keep the same buckets under two representations and differ only in the limit.
 */
module RateLimiter {
  import opened Prelude

  const WINDOW_MS := 60_000
  const RATE_LIMIT_PER_MIN: nat := 60
  const DEFAULT_LIMIT: nat := 300

  // ---- One bucket, as both guards see it ----

  datatype Bucket = Bucket(count: nat, start: int)

  type Buckets = map<string, Bucket>

  function Find(buckets: Buckets, key: string): Option<Bucket> {
    if key in buckets then Some(buckets[key]) else None
  }

  // Whether a request opens a new bucket.
  predicate Opens(bucket: Option<Bucket>, now: int) {
    bucket.None? || now >= bucket.value.start + WINDOW_MS
  }

  function Bump(bucket: Option<Bucket>, now: int): Bucket {
    if Opens(bucket, now) then Bucket(1, now) else Bucket(bucket.value.count + 1, bucket.value.start)
  }

  // The request that opens a bucket passes whatever the limit is.
  predicate Admits(limit: nat, bucket: Option<Bucket>, now: int) {
    Opens(bucket, now) || bucket.value.count + 1 <= limit
  }

  // ---- The guards ----

  datatype AddressBucket = AddressBucket(count: nat, resetAt: int)

  class GlobalRateLimitGuard {
    const limit: nat
    var buckets: map<string, AddressBucket>

    constructor (limit: nat := DEFAULT_LIMIT)
      ensures this.limit == limit && Abstract() == map[]
    {
      this.limit := limit;
      buckets := map[];
    }

    ghost function Abstract(): Buckets
      reads this
    {
      map ip | ip in buckets :: Bucket(buckets[ip].count, buckets[ip].resetAt - WINDOW_MS)
    }

    // False stands for the exception RATE_LIMITED.
    method CanActivate(ip: string, now: int) returns (allowed: bool)
      modifies this
      ensures allowed == Admits(limit, Find(old(Abstract()), ip), now)
      ensures Abstract() == old(Abstract())[ip := Bump(Find(old(Abstract()), ip), now)]
    {
      if ip !in buckets || now >= buckets[ip].resetAt {
        buckets := buckets[ip := AddressBucket(1, now + WINDOW_MS)];
        return true;
      }
      buckets := buckets[ip := buckets[ip].(count := buckets[ip].count + 1)];
      allowed := !(buckets[ip].count > limit);
    }
  }

  datatype Usage = Usage(count: nat, windowStart: int)

  class ApiKeyAuthGuard {
    var usage: map<string, Usage>

    constructor ()
      ensures Abstract() == map[]
    {
      usage := map[];
    }

    ghost function Abstract(): Buckets
      reads this
    {
      map keyId | keyId in usage :: Bucket(usage[keyId].count, usage[keyId].windowStart)
    }

    // False stands for the exception API_KEY_RATE_LIMIT.
    method EnforceRateLimit(keyId: string, now: int) returns (allowed: bool)
      modifies this
      ensures allowed == Admits(RATE_LIMIT_PER_MIN, Find(old(Abstract()), keyId), now)
      ensures Abstract() == old(Abstract())[keyId := Bump(Find(old(Abstract()), keyId), now)]
    {
      if keyId !in usage || now - usage[keyId].windowStart >= WINDOW_MS {
        usage := usage[keyId := Usage(1, now)];
        return true;
      }
      usage := usage[keyId := usage[keyId].(count := usage[keyId].count + 1)];
      allowed := !(usage[keyId].count > RATE_LIMIT_PER_MIN);
    }
  }

  // ---- Runs of requests ----

  datatype Request = Request(key: string, at: int)

  ghost predicate Chronological(log: seq<Request>) {
    forall i, j :: 0 <= i < j < |log| ==> log[i].at <= log[j].at
  }

  function After(log: seq<Request>): Buckets {
    if log == [] then map[]
    else
      var front, r := log[..|log| - 1], log[|log| - 1];
      After(front)[r.key := Bump(Find(After(front), r.key), r.at)]
  }

  // The bucket the key is left with.
  function BucketOf(log: seq<Request>, key: string): Option<Bucket> {
    Find(After(log), key)
  }

  // Whether request r passes after the requests in log.
  predicate Passes(limit: nat, log: seq<Request>, r: Request) {
    Admits(limit, BucketOf(log, r.key), r.at)
  }

  // The number of accepted requests of one key whose instant lies in [a, b).
  function AcceptedIn(limit: nat, log: seq<Request>, key: string, a: int, b: int): nat {
    if log == [] then 0
    else
      var front, r := log[..|log| - 1], log[|log| - 1];
      AcceptedIn(limit, front, key, a, b) + (if r.key == key && a <= r.at < b && Passes(limit, front, r) then 1 else 0)
  }

  // The number of accepted requests of one key counted in the bucket opened at start.
  function AcceptedInBucket(limit: nat, log: seq<Request>, key: string, start: int): nat {
    if log == [] then 0
    else
      var front, r := log[..|log| - 1], log[|log| - 1];
      AcceptedInBucket(limit, front, key, start)
      + (if r.key == key && Bump(BucketOf(front, key), r.at).start == start && Passes(limit, front, r) then 1 else 0)
  }

  // What a bucket lets through: its limit, and never less than the request that opened it.
  function Allowance(limit: nat): nat {
    if limit == 0 then 1 else limit
  }

  function Min(x: int, y: int): int {
    if x <= y then x else y
  }

  lemma {:induction false} BucketStartsAtARequest(log: seq<Request>, key: string, now: int)
    requires forall i :: 0 <= i < |log| ==> log[i].at <= now
    ensures BucketOf(log, key).Some? ==> BucketOf(log, key).value.start <= now && BucketOf(log, key).value.count >= 1
  {
    if log != [] {
      BucketStartsAtARequest(log[..|log| - 1], key, now);
    }
  }

  // One more request moves only the bucket of its own key.
  lemma BucketAfter(front: seq<Request>, r: Request, key: string)
    ensures BucketOf(front + [r], key) ==
            if r.key == key then Some(Bump(BucketOf(front, key), r.at)) else BucketOf(front, key)
  {
    assert (front + [r])[..|front|] == front;
  }

  // What is known about the accepted count of a bucket: exact for the open one, zero for later starts.
  ghost predicate BucketCounts(limit: nat, log: seq<Request>, key: string, start: int) {
    var n := AcceptedInBucket(limit, log, key, start);
    match BucketOf(log, key)
    case None => n == 0
    case Some(b) =>
      if start < b.start then n <= Allowance(limit)
      else if start == b.start then n == Min(b.count, Allowance(limit))
      else n == 0
  }

  lemma {:induction false} BucketCountsHold(limit: nat, log: seq<Request>, key: string, start: int)
    ensures BucketCounts(limit, log, key, start)
  {
    if log != [] {
      var front, r := log[..|log| - 1], log[|log| - 1];
      assert log == front + [r];
      BucketCountsHold(limit, front, key, start);
      BucketAfter(front, r, key);
      PositiveCount(front, key);
    }
  }

  lemma {:induction false} PositiveCount(log: seq<Request>, key: string)
    ensures BucketOf(log, key).Some? ==> BucketOf(log, key).value.count >= 1
  {
    if log != [] {
      PositiveCount(log[..|log| - 1], key);
    }
  }

  /** For any run of requests, each bucket lets at most the limit through (one if the limit is 0). */
  lemma EachBucketKeepsItsLimit(limit: nat, log: seq<Request>, key: string, start: int)
    ensures AcceptedInBucket(limit, log, key, start) <= Allowance(limit)
  {
    BucketCountsHold(limit, log, key, start);
  }

  /** Later requests of a key are counted in the same bucket or in one that starts at least a window later. */
  lemma {:induction false} BucketStartsAreAWindowApart(log: seq<Request>, later: seq<Request>, key: string)
    requires BucketOf(log, key).Some?
    ensures var b, c := BucketOf(log, key), BucketOf(log + later, key);
            c.Some? && (c.value.start == b.value.start || c.value.start >= b.value.start + WINDOW_MS)
  {
    if later == [] {
      assert log + later == log;
    } else {
      var front, r := later[..|later| - 1], later[|later| - 1];
      assert log + later == (log + front) + [r];
      BucketStartsAreAWindowApart(log, front, key);
      BucketAfter(log + front, r, key);
    }
  }

  lemma {:induction false} NoneBefore(limit: nat, log: seq<Request>, key: string, a: int, b: int)
    requires forall i :: 0 <= i < |log| ==> log[i].at < a
    ensures AcceptedIn(limit, log, key, a, b) == 0
  {
    if log != [] {
      NoneBefore(limit, log[..|log| - 1], key, a, b);
    }
  }

  // Accepted requests inside [a, a + WINDOW_MS), by where the open bucket starts.
  ghost predicate WindowCounts(limit: nat, log: seq<Request>, key: string, a: int) {
    var n, m := AcceptedIn(limit, log, key, a, a + WINDOW_MS), Allowance(limit);
    match BucketOf(log, key)
    case None => n == 0
    case Some(b) =>
      if b.start < a then n <= Min(b.count, m) - 1
      else if b.start < a + WINDOW_MS then n <= m - 1 + Min(b.count, m)
      else n <= 2 * m - 1
  }

  lemma {:induction false} WindowCountsHold(limit: nat, log: seq<Request>, key: string, a: int)
    requires Chronological(log)
    ensures WindowCounts(limit, log, key, a)
  {
    if log != [] {
      var front, r := log[..|log| - 1], log[|log| - 1];
      assert log == front + [r];
      WindowCountsHold(limit, front, key, a);
      BucketAfter(front, r, key);
      BucketStartsAtARequest(front, key, r.at);
      if r.at < a {
        NoneBefore(limit, front, key, a, a + WINDOW_MS);
      }
    }
  }

  /**
   * Whatever instants the requests of all keys come at, no half-open interval of one window holds more than
   * 2L - 1 accepted requests of a key.
   */
  lemma SlidingWindowBound(limit: nat, log: seq<Request>, key: string, a: int)
    requires Chronological(log)
    ensures AcceptedIn(limit, log, key, a, a + WINDOW_MS) <= 2 * Allowance(limit) - 1
  {
    WindowCountsHold(limit, log, key, a);
  }

  /**
   * With the numbers in use: a key of the API passes at most 60 times per bucket and 119 times in any 60 seconds, an
   * address at most 300 and 599 times by default.
   */
  lemma LimitsInUse(log: seq<Request>, key: string, start: int, a: int)
    requires Chronological(log)
    ensures AcceptedInBucket(RATE_LIMIT_PER_MIN, log, key, start) <= 60
    ensures AcceptedIn(RATE_LIMIT_PER_MIN, log, key, a, a + 60_000) <= 119
    ensures AcceptedInBucket(DEFAULT_LIMIT, log, key, start) <= 300
    ensures AcceptedIn(DEFAULT_LIMIT, log, key, a, a + 60_000) <= 599
  {
    EachBucketKeepsItsLimit(RATE_LIMIT_PER_MIN, log, key, start);
    EachBucketKeepsItsLimit(DEFAULT_LIMIT, log, key, start);
    SlidingWindowBound(RATE_LIMIT_PER_MIN, log, key, a);
    SlidingWindowBound(DEFAULT_LIMIT, log, key, a);
  }

  // ---- The bound is attained ----

  function Repeat(r: Request, n: nat): seq<Request> {
    seq(n, _ => r)
  }

  // One request opens a bucket, the rest of the allowance follows at its end, and the next bucket fills at once.
  function Burst(limit: nat, key: string): seq<Request> {
    var m := Allowance(limit);
    [Request(key, 0)] + Repeat(Request(key, WINDOW_MS - 1), m - 1) + Repeat(Request(key, WINDOW_MS), m)
  }

  lemma AcceptedOneMore(limit: nat, front: seq<Request>, r: Request, key: string, a: int, b: int)
    ensures AcceptedIn(limit, front + [r], key, a, b)
            == AcceptedIn(limit, front, key, a, b)
                + (if r.key == key && a <= r.at < b && Passes(limit, front, r) then 1 else 0)
  {
    assert (front + [r])[..|front|] == front;
  }

  // Repeating a request inside the open bucket is accepted while the limit lasts.
  lemma {:induction false} RepeatsAccepted(limit: nat, log: seq<Request>, r: Request, n: nat, a: int, b: int)
    requires var bucket := BucketOf(log, r.key);
             bucket.Some? && r.at < bucket.value.start + WINDOW_MS && bucket.value.count + n <= limit
    requires a <= r.at < b
    ensures var bucket := BucketOf(log, r.key).value;
            BucketOf(log + Repeat(r, n), r.key) == Some(Bucket(bucket.count + n, bucket.start))
    ensures AcceptedIn(limit, log + Repeat(r, n), r.key, a, b) == AcceptedIn(limit, log, r.key, a, b) + n
  {
    hide After, BucketOf, AcceptedIn;
    if n == 0 {
      assert log + Repeat(r, n) == log;
    } else {
      RepeatsAccepted(limit, log, r, n - 1, a, b);
      assert log + Repeat(r, n) == (log + Repeat(r, n - 1)) + [r];
      BucketAfter(log + Repeat(r, n - 1), r, r.key);
      AcceptedOneMore(limit, log + Repeat(r, n - 1), r, r.key, a, b);
    }
  }

  lemma EmptyLog(limit: nat, key: string, a: int, b: int)
    ensures BucketOf([], key) == None && AcceptedIn(limit, [], key, a, b) == 0
  {
  }

  lemma BurstParts(limit: nat, key: string)
    ensures var m := Allowance(limit);
            var two := [Request(key, 0)] + Repeat(Request(key, WINDOW_MS - 1), m - 1);
            Burst(limit, key) == (two + [Request(key, WINDOW_MS)]) + Repeat(Request(key, WINDOW_MS), m - 1)
  {
    var next, m := Request(key, WINDOW_MS), Allowance(limit);
    assert Repeat(next, m) == [next] + Repeat(next, m - 1);
  }

  lemma BurstIsChronological(limit: nat, key: string)
    ensures Chronological(Burst(limit, key))
  {
  }

  /** For every limit some run reaches 2L - 1, so the interval bound cannot be lowered. */
  lemma SlidingWindowBoundIsAttained(limit: nat, key: string)
    ensures Chronological(Burst(limit, key))
    ensures AcceptedIn(limit, Burst(limit, key), key, WINDOW_MS - 1, 2 * WINDOW_MS - 1) == 2 * Allowance(limit) - 1
  {
    hide After, BucketOf, AcceptedIn;
    var m, a, b := Allowance(limit), WINDOW_MS - 1, 2 * WINDOW_MS - 1;
    var first, late, next := Request(key, 0), Request(key, WINDOW_MS - 1), Request(key, WINDOW_MS);
    var one := [first];
    assert one == [] + one;
    EmptyLog(limit, key, a, b);
    BucketAfter([], first, key);
    AcceptedOneMore(limit, [], first, key, a, b);
    var two := one + Repeat(late, m - 1);
    if m == 1 {
      assert two == one;
    } else {
      RepeatsAccepted(limit, one, late, m - 1, a, b);
    }
    BucketAfter(two, next, key);
    AcceptedOneMore(limit, two, next, key, a, b);
    var three := two + [next];
    if m == 1 {
      assert three + Repeat(next, m - 1) == three;
    } else {
      RepeatsAccepted(limit, three, next, m - 1, a, b);
    }
    BurstParts(limit, key);
    BurstIsChronological(limit, key);
  }

  // ---- Keys do not disturb each other ----

  // The requests of one key.
  function Only(log: seq<Request>, key: string): seq<Request> {
    if log == [] then []
    else
      var front, r := log[..|log| - 1], log[|log| - 1];
      if r.key == key then Only(front, key) + [r] else Only(front, key)
  }

  // The answers given to one key, in order.
  function Answers(limit: nat, log: seq<Request>, key: string): seq<bool> {
    if log == [] then []
    else
      var front, r := log[..|log| - 1], log[|log| - 1];
      if r.key == key then Answers(limit, front, key) + [Passes(limit, front, r)] else Answers(limit, front, key)
  }

  /** A key's bucket and every answer it gets are those of a run in which no other key appears. */
  lemma {:induction false} KeysAreIndependent(limit: nat, log: seq<Request>, key: string)
    ensures BucketOf(log, key) == BucketOf(Only(log, key), key)
    ensures Answers(limit, log, key) == Answers(limit, Only(log, key), key)
  {
    if log != [] {
      var front, r := log[..|log| - 1], log[|log| - 1];
      assert log == front + [r];
      KeysAreIndependent(limit, front, key);
      BucketAfter(front, r, key);
      if r.key == key {
        assert Only(log, key) == Only(front, key) + [r];
        assert (Only(front, key) + [r])[..|Only(front, key)|] == Only(front, key);
        BucketAfter(Only(front, key), r, key);
      }
    }
  }
}
