/**
  The limit on verification messages to one phone number: a list of send times in an expiring cache, pruned
  whenever a send is recorded, decides like a complete log that is never pruned.

  Times are whole seconds of one clock that does not go back.
*/
module SmsLimiter {

  import opened Wrappers
  import opened Intervals

  const MINUTE := 60
  const HOUR := 3600
  const HOURLY_LIMIT := 5

  datatype Verdict = Allowed | TooSoon | TooMany

  /** The cache entry of one number. */
  datatype Cache = Missing | Entry(times: seq<Instant>, expiry: Instant)

  function Get(c: Cache, now: Instant): seq<Instant> {
    if c.Entry? && now < c.expiry then c.times else []
  }

  /** The times less than an hour ago. */
  function Recent(times: seq<Instant>, now: Instant): (r: seq<Instant>)
    ensures forall t :: t in r <==> t in times && now - t < HOUR
  {
    if times == [] then []
    else
      var rest, t := Recent(times[..|times| - 1], now), times[|times| - 1];
      if now - t < HOUR then rest + [t] else rest
  }

  function Decide(times: seq<Instant>, now: Instant): Verdict {
    var recent := Recent(times, now);
    if exists t | t in recent :: t > now - MINUTE then TooSoon
    else if |recent| >= HOURLY_LIMIT then TooMany
    else Allowed
  }

  /** One request: when it is checked, and when the send is recorded if the provider accepts it. */
  datatype Attempt = Attempt(checkedAt: Instant, sentAt: Option<Instant>)

  /** Requests one after the other: each is checked after everything before it has happened. */
  ghost predicate Sequential(attempts: seq<Attempt>) {
    && (forall i :: 0 <= i < |attempts| && attempts[i].sentAt.Some? ==> attempts[i].checkedAt <= attempts[i].sentAt.value)
    && forall i, j :: 0 <= i < j < |attempts| ==> EndOf(attempts[i]) <= attempts[j].checkedAt
  }

  function EndOf(a: Attempt): Instant {
    if a.sentAt.Some? then a.sentAt.value else a.checkedAt
  }

  /******* The reference: a complete log *******/

  function Log(attempts: seq<Attempt>): seq<Instant> {
    if attempts == [] then [] else LogNext(Log(attempts[..|attempts| - 1]), attempts[|attempts| - 1])
  }

  function LogNext(log: seq<Instant>, a: Attempt): seq<Instant> {
    if Decide(log, a.checkedAt) == Allowed && a.sentAt.Some? then log + [a.sentAt.value] else log
  }

  /******* The pruned list *******/

  function Record(c: Cache, now: Instant): Cache {
    Entry(Recent(Get(c, now) + [now], now), now + HOUR)
  }

  function CacheAfter(attempts: seq<Attempt>): Cache {
    if attempts == [] then Missing else CacheNext(CacheAfter(attempts[..|attempts| - 1]), attempts[|attempts| - 1])
  }

  function CacheNext(c: Cache, a: Attempt): Cache {
    if Decide(Get(c, a.checkedAt), a.checkedAt) == Allowed && a.sentAt.Some? then Record(c, a.sentAt.value) else c
  }

  /** The limiter of one number, as it is updated in place. */
  class Limiter {
    var cache: Cache

    constructor ()
      ensures cache == CacheAfter([])
    {
      cache := Missing;
    }

    method CheckSendFrequency(now: Instant) returns (v: Verdict)
      ensures v == Decide(Get(cache, now), now)
    {
      var sendTimes := Get(cache, now);
      sendTimes := Recent(sendTimes, now);
      var recentSends: seq<Instant> := [];
      for i := 0 to |sendTimes|
        invariant forall t :: t in recentSends <==> t in sendTimes[..i] && t > now - MINUTE
      {
        if sendTimes[i] > now - MINUTE {
          recentSends := recentSends + [sendTimes[i]];
        }
      }
      if recentSends != [] {
        var t := recentSends[0];
        assert t in recentSends && sendTimes[..|sendTimes|] == sendTimes;
        assert t in Recent(Get(cache, now), now);
        return TooSoon;
      }
      return if |sendTimes| >= HOURLY_LIMIT then TooMany else Allowed;
    }

    method RecordSendFrequency(now: Instant)
      modifies this
      ensures cache == Record(old(cache), now)
    {
      var sendTimes := Get(cache, now);
      sendTimes := sendTimes + [now];
      sendTimes := Recent(sendTimes, now);
      cache := Entry(sendTimes, now + HOUR);
    }

    /** Checks, sends, and records the send if it went through. */
    method Send(a: Attempt, ghost before: seq<Attempt>) returns (v: Verdict)
      requires cache == CacheAfter(before) && Sequential(before + [a])
      modifies this
      ensures cache == CacheAfter(before + [a])
      ensures v == Decide(Log(before), a.checkedAt)
    {
      PrunedDecidesAsFull(before, a);
      SequentialInit(before, a);
      v := CheckSendFrequency(a.checkedAt);
      if v == Allowed && a.sentAt.Some? {
        RecordSendFrequency(a.sentAt.value);
      }
    }
  }

  /******* The pruned list decides like the log *******/

  lemma {:induction false} RecentTwice(times: seq<Instant>, now: Instant, later: Instant)
    requires now <= later
    ensures Recent(Recent(times, now), later) == Recent(times, later)
  {
    if times != [] {
      var init, t := times[..|times| - 1], times[|times| - 1];
      RecentTwice(init, now, later);
      if now - t < HOUR {
        assert Recent(times, now)[..|Recent(times, now)| - 1] == Recent(init, now);
      }
    }
  }

  lemma {:induction false} RecentNone(times: seq<Instant>, now: Instant)
    requires forall i :: 0 <= i < |times| ==> now - times[i] >= HOUR
    ensures Recent(times, now) == []
  {
    if times != [] {
      RecentNone(times[..|times| - 1], now);
    }
  }

  /** The entry holds what was recent at the last send, and lives an hour from then. */
  ghost predicate Mirrors(c: Cache, log: seq<Instant>) {
    && (log == [] ==> c == Missing)
    && (log != [] ==> var last := log[|log| - 1];
                      c == Entry(Recent(log, last), last + HOUR) && forall t :: t in log ==> t <= last)
  }

  lemma MirrorDecides(c: Cache, log: seq<Instant>, now: Instant)
    requires Mirrors(c, log) && (log != [] ==> log[|log| - 1] <= now)
    ensures Recent(Get(c, now), now) == Recent(log, now)
    ensures Decide(Get(c, now), now) == Decide(log, now)
  {
    if log != [] {
      var last := log[|log| - 1];
      if now < last + HOUR {
        RecentTwice(log, last, now);
      } else {
        assert forall i :: 0 <= i < |log| ==> log[i] in log;
        RecentNone(log, now);
      }
    }
  }

  /** Requests that have been answered, and the next one. */
  lemma SequentialInit(init: seq<Attempt>, a: Attempt)
    requires Sequential(init + [a])
    ensures Sequential(init)
    ensures forall i :: 0 <= i < |init| ==> EndOf(init[i]) <= a.checkedAt
    ensures a.sentAt.Some? ==> a.checkedAt <= a.sentAt.value
    ensures Log(init + [a]) == LogNext(Log(init), a) && CacheAfter(init + [a]) == CacheNext(CacheAfter(init), a)
  {
    var all := init + [a];
    assert all[..|init|] == init && all[|init|] == a;
    assert forall i :: 0 <= i < |init| ==> init[i] == all[i];
  }

  /** Every time in the log is the end of some request. */
  ghost predicate LogOf(log: seq<Instant>, attempts: seq<Attempt>) {
    forall t :: t in log ==> exists i :: 0 <= i < |attempts| && t == EndOf(attempts[i])
  }

  ghost predicate Before(log: seq<Instant>, now: Instant) {
    && (forall t :: t in log ==> t <= now)
    && (log != [] ==> log[|log| - 1] <= now)
  }

  lemma LogBefore(log: seq<Instant>, init: seq<Attempt>, now: Instant)
    requires LogOf(log, init) && forall i :: 0 <= i < |init| ==> EndOf(init[i]) <= now
    ensures Before(log, now)
  {
    assert log != [] ==> log[|log| - 1] in log;
  }

  lemma LogOfNext(log: seq<Instant>, init: seq<Attempt>, a: Attempt)
    requires LogOf(log, init)
    ensures LogOf(LogNext(log, a), init + [a])
  {
    var all := init + [a];
    forall t | t in LogNext(log, a) ensures exists i :: 0 <= i < |all| && t == EndOf(all[i]) {
      if t in log {
        var i :| 0 <= i < |init| && t == EndOf(init[i]);
        assert t == EndOf(all[i]);
      } else {
        assert t == EndOf(all[|init|]);
      }
    }
  }

  lemma MirrorNext(c: Cache, log: seq<Instant>, a: Attempt)
    requires Mirrors(c, log) && Before(log, a.checkedAt) && (a.sentAt.Some? ==> a.checkedAt <= a.sentAt.value)
    ensures Mirrors(CacheNext(c, a), LogNext(log, a))
  {
    MirrorDecides(c, log, a.checkedAt);
    if Decide(log, a.checkedAt) == Allowed && a.sentAt.Some? {
      MirrorRecords(c, log, a.sentAt.value);
    }
  }

  lemma {:induction false} MirrorHolds(attempts: seq<Attempt>)
    requires Sequential(attempts)
    ensures Mirrors(CacheAfter(attempts), Log(attempts)) && LogOf(Log(attempts), attempts)
  {
    if attempts != [] {
      var init, a := attempts[..|attempts| - 1], attempts[|attempts| - 1];
      assert init + [a] == attempts;
      SequentialInit(init, a);
      MirrorHolds(init);
      LogBefore(Log(init), init, a.checkedAt);
      MirrorNext(CacheAfter(init), Log(init), a);
      LogOfNext(Log(init), init, a);
    }
  }

  lemma MirrorRecords(c: Cache, log: seq<Instant>, now: Instant)
    requires Mirrors(c, log) && forall t :: t in log ==> t <= now
    ensures Mirrors(Record(c, now), log + [now])
  {
    assert log != [] ==> log[|log| - 1] in log;
    MirrorDecides(c, log, now);
    RecentPush(Get(c, now), now);
    RecentPush(log, now);
    hide Recent;
  }

  lemma RecentPush(times: seq<Instant>, now: Instant)
    ensures Recent(times + [now], now) == Recent(times, now) + [now]
  {
    assert (times + [now])[..|times|] == times;
  }

  /** In every sequential run the pruned, expiring list gives each request the verdict of the complete log. */
  lemma PrunedDecidesAsFull(before: seq<Attempt>, a: Attempt)
    requires Sequential(before + [a])
    ensures Decide(Get(CacheAfter(before), a.checkedAt), a.checkedAt) == Decide(Log(before), a.checkedAt)
  {
    SequentialInit(before, a);
    MirrorHolds(before);
    LogBefore(Log(before), before, a.checkedAt);
    MirrorDecides(CacheAfter(before), Log(before), a.checkedAt);
  }

  /******* The bounds *******/

  ghost predicate Spaced(log: seq<Instant>) {
    forall i, j :: 0 <= i < j < |log| ==> log[i] + MINUTE <= log[j]
  }

  lemma {:induction false} CountAtMostRecent(times: seq<Instant>, from: Instant, to: Instant, now: Instant)
    requires now - from < HOUR
    ensures CountIn(times, from, to) <= |Recent(times, now)|
  {
    if times != [] {
      CountAtMostRecent(times[..|times| - 1], from, to, now);
    }
  }

  /** Recorded sends are at least a minute apart, and any half-open hour holds at most five of them. */
  lemma {:induction false} SendsAreBounded(attempts: seq<Attempt>, from: Instant)
    requires Sequential(attempts)
    ensures Spaced(Log(attempts))
    ensures CountIn(Log(attempts), from, from + HOUR) <= HOURLY_LIMIT
  {
    if attempts != [] {
      var init, a := attempts[..|attempts| - 1], attempts[|attempts| - 1];
      assert init + [a] == attempts;
      SequentialInit(init, a);
      SendsAreBounded(init, from);
      MirrorHolds(init);
      LogBefore(Log(init), init, a.checkedAt);
      BoundsNext(Log(init), a, from);
    }
  }

  lemma BoundsNext(log: seq<Instant>, a: Attempt, from: Instant)
    requires Spaced(log) && CountIn(log, from, from + HOUR) <= HOURLY_LIMIT
    requires Before(log, a.checkedAt) && (a.sentAt.Some? ==> a.checkedAt <= a.sentAt.value)
    ensures Spaced(LogNext(log, a)) && CountIn(LogNext(log, a), from, from + HOUR) <= HOURLY_LIMIT
  {
    if Decide(log, a.checkedAt) == Allowed && a.sentAt.Some? {
      SpacedSnoc(log, a.checkedAt, a.sentAt.value);
      CountSnoc(log, a.checkedAt, a.sentAt.value, from);
    }
  }

  lemma SpacedSnoc(log: seq<Instant>, checkedAt: Instant, sentAt: Instant)
    requires Spaced(log) && Decide(log, checkedAt) == Allowed && checkedAt <= sentAt
    requires forall t :: t in log ==> t <= checkedAt
    ensures Spaced(log + [sentAt])
  {
    forall i | 0 <= i < |log| ensures log[i] + MINUTE <= sentAt {
      assert log[i] in Recent(log, checkedAt) || checkedAt - log[i] >= HOUR;
    }
  }

  lemma CountSnoc(log: seq<Instant>, checkedAt: Instant, sentAt: Instant, from: Instant)
    requires CountIn(log, from, from + HOUR) <= HOURLY_LIMIT && Decide(log, checkedAt) == Allowed && checkedAt <= sentAt
    ensures CountIn(log + [sentAt], from, from + HOUR) <= HOURLY_LIMIT
  {
    assert (log + [sentAt])[..|log|] == log;
    if from <= sentAt < from + HOUR {
      CountAtMostRecent(log, from, from + HOUR, checkedAt);
    }
  }

  /** A request an hour after the last recorded send is always allowed. */
  lemma HourLaterAllowed(before: seq<Attempt>, a: Attempt)
    requires Sequential(before + [a])
    requires Log(before) != [] ==> Log(before)[|Log(before)| - 1] + HOUR <= a.checkedAt
    ensures Decide(Get(CacheAfter(before), a.checkedAt), a.checkedAt) == Allowed
  {
    PrunedDecidesAsFull(before, a);
    SequentialInit(before, a);
    MirrorHolds(before);
    var log := Log(before);
    assert forall i :: 0 <= i < |log| ==> log[i] in log;
    RecentNone(log, a.checkedAt);
  }
}
