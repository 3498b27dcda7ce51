/** The spend and transaction counters in Redis: one key per UTC day or hour, kept alive by a time to live. */
module RateCounters {
  import opened Prelude

  const HOUR: nat := 3_600_000
  const DAY: nat := 24 * HOUR

  function DayOf(t: nat): nat {
    t / DAY
  }

  function HourOf(t: nat): nat {
    t / HOUR
  }

  // The key strings, whose parts cannot run into each other.
  datatype Key = DailyKey(orgId: Id, memberId: Id, day: nat) | HourlyKey(orgId: Id, memberId: Id, hour: nat)

  datatype Entry = Entry(value: real, expiresAt: Option<nat>)

  type Redis = map<Key, Entry>

  // ---- The Redis commands used ----

  predicate Alive(redis: Redis, key: Key, now: nat) {
    key in redis && (redis[key].expiresAt.Some? ==> now < redis[key].expiresAt.value)
  }

  function Get(redis: Redis, key: Key, now: nat): real {
    if Alive(redis, key, now) then redis[key].value else 0.0
  }

  function IncrBy(redis: Redis, key: Key, amount: real, now: nat): Redis {
    redis[key := Entry(Get(redis, key, now) + amount, if Alive(redis, key, now) then redis[key].expiresAt else None)]
  }

  function Expire(redis: Redis, key: Key, ttl: nat, now: nat): Redis {
    if Alive(redis, key, now) then redis[key := redis[key].(expiresAt := Some(now + ttl))] else redis
  }

  // A command as the service sends it. An increment names the bucket of the instant it runs at; the
  // matching expire names the same bucket but may run later, after commands of other requests.
  datatype Command =
    | AddUsd(orgId: Id, memberId: Id, amount: real)
    | RefreshDay(orgId: Id, memberId: Id, day: nat)
    | AddTx(orgId: Id, memberId: Id)
    | RefreshHour(orgId: Id, memberId: Id, hour: nat)

  datatype Stamped = Stamped(at: nat, command: Command)

  function Perform(redis: Redis, s: Stamped): Redis {
    match s.command
    case AddUsd(org, m, amount) => IncrBy(redis, DailyKey(org, m, DayOf(s.at)), amount, s.at)
    case RefreshDay(org, m, day) => Expire(redis, DailyKey(org, m, day), 25 * HOUR, s.at)
    case AddTx(org, m) => IncrBy(redis, HourlyKey(org, m, HourOf(s.at)), 1.0, s.at)
    case RefreshHour(org, m, hour) => Expire(redis, HourlyKey(org, m, hour), HOUR, s.at)
  }

  function Replay(log: seq<Stamped>): Redis {
    if log == [] then map[] else Perform(Replay(log[..|log| - 1]), log[|log| - 1])
  }

  // ---- The service ----

  datatype Counters = Counters(dailyUsdSpent: real, txCountLastHour: real)

  class RateCounterService {
    const connected: bool  // whether a Redis client exists
    var redis: Redis
    ghost var log: seq<Stamped>  // every command Redis has performed

    constructor (connected: bool)
      ensures this.connected == connected && Valid() && log == []
    {
      this.connected := connected;
      redis, log := map[], [];
    }

    ghost predicate Valid()
      reads this
    {
      Chronological(log) && redis == Replay(log)
    }

    // Nothing has been performed after the instant.
    ghost predicate UpTo(now: nat)
      reads this
    {
      forall i :: 0 <= i < |log| ==> log[i].at <= now
    }

    // The amount goes to the UTC day of the increment, also if that day is over when its key is refreshed.
    method IncrementDailyUsd(orgId: Id, memberId: Id, amountUsd: real, now: nat, later: nat)
      requires Valid() && UpTo(now) && now <= later
      modifies this
      ensures Valid() && UpTo(later)
      ensures log == old(log) + (if connected then UsdCommands(orgId, memberId, amountUsd, now, later) else [])
      ensures forall key :: Ledger(log, key) == Ledger(old(log), key)
                            + (if connected && key == DailyKey(orgId, memberId, DayOf(now)) then amountUsd else 0.0)
    {
      if connected {
        hide Chronological, Replay, IncrBy, Expire;
        var key := DailyKey(orgId, memberId, now / DAY);
        redis := IncrBy(redis, key, amountUsd, now);
        redis := Expire(redis, key, 25 * 60 * 60 * 1000, later);
        ReplayTwo(log, Stamped(now, AddUsd(orgId, memberId, amountUsd)),
                  Stamped(later, RefreshDay(orgId, memberId, DayOf(now))));
        UsdInOrder(log, orgId, memberId, amountUsd, now, later);
        UsdLedger(log, orgId, memberId, amountUsd, now, later);
        log := log + UsdCommands(orgId, memberId, amountUsd, now, later);
      }
    }

    method IncrementHourlyTx(orgId: Id, memberId: Id, now: nat, later: nat)
      requires Valid() && UpTo(now) && now <= later
      modifies this
      ensures Valid() && UpTo(later)
      ensures log == old(log) + (if connected then TxCommands(orgId, memberId, now, later) else [])
      ensures forall key :: Ledger(log, key) == Ledger(old(log), key)
                            + (if connected && key == HourlyKey(orgId, memberId, HourOf(now)) then 1.0 else 0.0)
    {
      if connected {
        hide Chronological, Replay, IncrBy, Expire;
        var key := HourlyKey(orgId, memberId, now / HOUR);
        redis := IncrBy(redis, key, 1.0, now);
        redis := Expire(redis, key, 60 * 60 * 1000, later);
        ReplayTwo(log, Stamped(now, AddTx(orgId, memberId)), Stamped(later, RefreshHour(orgId, memberId, HourOf(now))));
        TxInOrder(log, orgId, memberId, now, later);
        TxLedger(log, orgId, memberId, now, later);
        log := log + TxCommands(orgId, memberId, now, later);
      }
    }

    /** Reads exactly the spend and the number of transactions recorded in the UTC day and hour of the instant. */
    method GetCounters(orgId: Id, memberId: Id, now: nat) returns (counters: Counters)
      requires Valid() && UpTo(now)
      ensures counters == if connected
                          then Counters(Ledger(log, DailyKey(orgId, memberId, DayOf(now))),
                                        Ledger(log, HourlyKey(orgId, memberId, HourOf(now))))
                          else Counters(0.0, 0.0)
    {
      if !connected {
        return Counters(0.0, 0.0);
      }
      CountersReadTheLedger(log, orgId, memberId, now);
      counters := Counters(Get(redis, DailyKey(orgId, memberId, now / DAY), now),
                           Get(redis, HourlyKey(orgId, memberId, now / HOUR), now));
    }
  }

  // The commands of one increment.
  function UsdCommands(orgId: Id, memberId: Id, amountUsd: real, now: nat, later: nat): seq<Stamped> {
    [Stamped(now, AddUsd(orgId, memberId, amountUsd)), Stamped(later, RefreshDay(orgId, memberId, DayOf(now)))]
  }

  function TxCommands(orgId: Id, memberId: Id, now: nat, later: nat): seq<Stamped> {
    [Stamped(now, AddTx(orgId, memberId)), Stamped(later, RefreshHour(orgId, memberId, HourOf(now)))]
  }

  lemma LedgerOfTwo(log: seq<Stamped>, a: Stamped, b: Stamped, key: Key)
    ensures Ledger(log + [a, b], key) == Ledger(log, key) + Adds(a, key) + Adds(b, key)
  {
    hide Adds;
    assert (log + [a, b])[..|log| + 1] == log + [a] && (log + [a])[..|log|] == log;
  }

  lemma UsdLedger(log: seq<Stamped>, orgId: Id, memberId: Id, amountUsd: real, now: nat, later: nat)
    ensures forall key :: Ledger(log + UsdCommands(orgId, memberId, amountUsd, now, later), key) == Ledger(log, key)
                          + (if key == DailyKey(orgId, memberId, DayOf(now)) then amountUsd else 0.0)
  {
    hide Ledger, DayOf;
    forall key
      ensures Ledger(log + UsdCommands(orgId, memberId, amountUsd, now, later), key) == Ledger(log, key)
              + (if key == DailyKey(orgId, memberId, DayOf(now)) then amountUsd else 0.0)
    {
      LedgerOfTwo(log, Stamped(now, AddUsd(orgId, memberId, amountUsd)),
                  Stamped(later, RefreshDay(orgId, memberId, DayOf(now))), key);
    }
  }

  lemma TxLedger(log: seq<Stamped>, orgId: Id, memberId: Id, now: nat, later: nat)
    ensures forall key :: Ledger(log + TxCommands(orgId, memberId, now, later), key) == Ledger(log, key)
                          + (if key == HourlyKey(orgId, memberId, HourOf(now)) then 1.0 else 0.0)
  {
    hide Ledger, HourOf;
    forall key
      ensures Ledger(log + TxCommands(orgId, memberId, now, later), key) == Ledger(log, key)
              + (if key == HourlyKey(orgId, memberId, HourOf(now)) then 1.0 else 0.0)
    {
      LedgerOfTwo(log, Stamped(now, AddTx(orgId, memberId)),
                  Stamped(later, RefreshHour(orgId, memberId, HourOf(now))), key);
    }
  }

  lemma ReplayTwo(log: seq<Stamped>, a: Stamped, b: Stamped)
    ensures Replay(log + [a, b]) == Perform(Perform(Replay(log), a), b)
  {
    hide Perform;
    assert (log + [a, b])[..|log| + 1] == log + [a] && (log + [a])[..|log|] == log;
  }

  lemma UsdInOrder(log: seq<Stamped>, orgId: Id, memberId: Id, amountUsd: real, now: nat, later: nat)
    requires Chronological(log) && now <= later && forall i :: 0 <= i < |log| ==> log[i].at <= now
    ensures Chronological(log + UsdCommands(orgId, memberId, amountUsd, now, later))
  {
    BucketsGrow(now, later);
  }

  lemma TxInOrder(log: seq<Stamped>, orgId: Id, memberId: Id, now: nat, later: nat)
    requires Chronological(log) && now <= later && forall i :: 0 <= i < |log| ==> log[i].at <= now
    ensures Chronological(log + TxCommands(orgId, memberId, now, later))
  {
    BucketsGrow(now, later);
  }

  lemma BucketsGrow(t: nat, u: nat)
    requires t <= u
    ensures DayOf(t) <= DayOf(u) && HourOf(t) <= HourOf(u)
  {
  }

  // ---- The ledger the counters stand for ----

  // What one command adds to a key's bucket.
  function Adds(s: Stamped, key: Key): real {
    match s.command
    case AddUsd(org, m, amount) => if key == DailyKey(org, m, DayOf(s.at)) then amount else 0.0
    case AddTx(org, m) => if key == HourlyKey(org, m, HourOf(s.at)) then 1.0 else 0.0
    case _ => 0.0
  }

  // The sum of the amounts (or the number of transactions) recorded in the key's day (or hour).
  function Ledger(log: seq<Stamped>, key: Key): real {
    if log == [] then 0.0 else Ledger(log[..|log| - 1], key) + Adds(log[|log| - 1], key)
  }

  // The first instant after the key's bucket.
  function BucketEnd(key: Key): nat {
    match key
    case DailyKey(_, _, day) => (day + 1) * DAY
    case HourlyKey(_, _, hour) => (hour + 1) * HOUR
  }

  // Time does not run backwards, and an expire never precedes the bucket it refreshes.
  ghost predicate Chronological(log: seq<Stamped>) {
    && (forall i, j :: 0 <= i < j < |log| ==> log[i].at <= log[j].at)
    && (forall i :: 0 <= i < |log| ==>
          match log[i].command
          case RefreshDay(_, _, day) => day <= DayOf(log[i].at)
          case RefreshHour(_, _, hour) => hour <= HourOf(log[i].at)
          case _ => true)
  }

  // The key holds its whole ledger and cannot expire inside its bucket.
  ghost predicate Faithful(redis: Redis, log: seq<Stamped>, key: Key) {
    if key in redis
    then redis[key].value == Ledger(log, key)
         && (redis[key].expiresAt.Some? ==> BucketEnd(key) <= redis[key].expiresAt.value)
    else Ledger(log, key) == 0.0
  }

  lemma DayBounds(t: nat)
    ensures DayOf(t) * DAY <= t < (DayOf(t) + 1) * DAY
    ensures HourOf(t) * HOUR <= t < (HourOf(t) + 1) * HOUR
  {
  }

  /** Buckets are the days and hours of UTC: 86,400,000 and 3,600,000 milliseconds each. */
  lemma BucketLengths(t: nat)
    ensures DayOf(t) * 86_400_000 <= t < DayOf(t) * 86_400_000 + 86_400_000
    ensures HourOf(t) * 3_600_000 <= t < HourOf(t) * 3_600_000 + 3_600_000
  {
    DayBounds(t);
  }

  /** Refreshing a key that is alive keeps it for 25 hours (daily) or one hour (hourly) from then, and no longer. */
  lemma RefreshedKeyLivesFor(redis: Redis, orgId: Id, memberId: Id, bucket: nat, at: nat, now: nat)
    ensures var daily := DailyKey(orgId, memberId, bucket);
            Alive(redis, daily, at) ==>
            (Alive(Perform(redis, Stamped(at, RefreshDay(orgId, memberId, bucket))), daily, now)
             <==> now < at + 90_000_000)
    ensures var hourly := HourlyKey(orgId, memberId, bucket);
            Alive(redis, hourly, at) ==>
            (Alive(Perform(redis, Stamped(at, RefreshHour(orgId, memberId, bucket))), hourly, now)
             <==> now < at + 3_600_000)
  {
  }

  lemma PerformKeepsFaithful(redis: Redis, log: seq<Stamped>, s: Stamped, key: Key)
    requires Faithful(redis, log, key)
    requires match s.command
             case RefreshDay(_, _, day) => day <= DayOf(s.at)
             case RefreshHour(_, _, hour) => hour <= HourOf(s.at)
             case _ => true
    ensures Faithful(Perform(redis, s), log + [s], key)
  {
    assert (log + [s])[..|log|] == log;
    DayBounds(s.at);
    match s.command
    case RefreshDay(org, m, day) => assert day * DAY <= DayOf(s.at) * DAY;
    case RefreshHour(org, m, hour) => assert hour * HOUR <= HourOf(s.at) * HOUR;
    case _ =>
  }

  lemma {:induction false} ReplayIsFaithful(log: seq<Stamped>, key: Key)
    requires Chronological(log)
    ensures Faithful(Replay(log), log, key)
  {
    if log != [] {
      var front, s := log[..|log| - 1], log[|log| - 1];
      assert log == front + [s];
      ReplayIsFaithful(front, key);
      PerformKeepsFaithful(Replay(front), front, s, key);
    }
  }

  /**
   * Buckets with a time to live refine a ledger: at any instant not before the last command, the counters
   * read are exactly the spend and the transactions recorded in that instant's UTC day and hour.
   */
  lemma CountersReadTheLedger(log: seq<Stamped>, orgId: Id, memberId: Id, now: nat)
    requires Chronological(log) && (log != [] ==> log[|log| - 1].at <= now)
    ensures Get(Replay(log), DailyKey(orgId, memberId, DayOf(now)), now)
            == Ledger(log, DailyKey(orgId, memberId, DayOf(now)))
    ensures Get(Replay(log), HourlyKey(orgId, memberId, HourOf(now)), now)
            == Ledger(log, HourlyKey(orgId, memberId, HourOf(now)))
  {
    DayBounds(now);
    ReplayIsFaithful(log, DailyKey(orgId, memberId, DayOf(now)));
    ReplayIsFaithful(log, HourlyKey(orgId, memberId, HourOf(now)));
  }

  lemma {:induction false} NothingRecordedLater(log: seq<Stamped>, key: Key)
    requires forall i :: 0 <= i < |log| ==>
               match key
               case DailyKey(_, _, day) => DayOf(log[i].at) < day
               case HourlyKey(_, _, hour) => HourOf(log[i].at) < hour
    ensures Ledger(log, key) == 0.0
  {
    if log != [] {
      NothingRecordedLater(log[..|log| - 1], key);
    }
  }
}
