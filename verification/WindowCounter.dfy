/**
  Counters in an expiring cache whose expiry is renewed on each count: API rate limiting, failed logins
  (cleared by a success) and token refreshes.

  The counter is compared with a log of all counted events since the last clear. Times are whole seconds
  of one clock that does not go back.
*/
module WindowCounter {

  import opened Intervals

  datatype Cache = Missing | Entry(count: nat, expiry: Instant)

  function Get(c: Cache, now: Instant): nat {
    if c.Entry? && now < c.expiry then c.count else 0
  }

  /** What an attempt does once it is admitted; `Skip` if it is turned away for another reason. */
  datatype Action = Skip | Count(at: Instant) | Clear(at: Instant)

  datatype Attempt = Attempt(checkedAt: Instant, action: Action)

  function EndOf(a: Attempt): Instant {
    match a.action
    case Skip => a.checkedAt
    case Count(at) => at
    case Clear(at) => at
  }

  predicate Admits(c: Cache, limit: nat, now: Instant) {
    Get(c, now) < limit
  }

  function Act(c: Cache, window: nat, action: Action): Cache {
    match action
    case Skip => c
    case Count(at) => Entry(Get(c, at) + 1, at + window)
    case Clear(_) => Missing
  }

  function CacheAfter(attempts: seq<Attempt>, limit: nat, window: nat): Cache {
    if attempts == [] then Missing
    else
      var c, a := CacheAfter(attempts[..|attempts| - 1], limit, window), attempts[|attempts| - 1];
      if Admits(c, limit, a.checkedAt) then Act(c, window, a.action) else c
  }

  lemma CacheNext(before: seq<Attempt>, a: Attempt, limit: nat, window: nat)
    ensures CacheAfter(before + [a], limit, window)
         == var c := CacheAfter(before, limit, window); if Admits(c, limit, a.checkedAt) then Act(c, window, a.action) else c
  {
    assert (before + [a])[..|before|] == before;
  }

  /******* The reference: a log of the counted events since the last clear *******/

  /** The length of the last stretch of events in which each follows the previous one within a window. */
  function Stretch(log: seq<Instant>, window: nat): nat {
    if |log| <= 1 then |log|
    else if log[|log| - 1] - log[|log| - 2] >= window then 1
    else Stretch(log[..|log| - 1], window) + 1
  }

  /** Admitted after a pause of a window, or while the stretch is shorter than the limit. */
  predicate Admitted(log: seq<Instant>, limit: nat, window: nat, now: Instant) {
    limit > 0 && (log == [] || now - log[|log| - 1] >= window || Stretch(log, window) < limit)
  }

  function Log(attempts: seq<Attempt>, limit: nat, window: nat): seq<Instant> {
    if attempts == [] then []
    else
      var log, a := Log(attempts[..|attempts| - 1], limit, window), attempts[|attempts| - 1];
      if !Admitted(log, limit, window, a.checkedAt) then log
      else match a.action
           case Skip => log
           case Count(at) => log + [at]
           case Clear(_) => []
  }

  /** Attempts one after the other. */
  ghost predicate Sequential(attempts: seq<Attempt>) {
    && (forall i :: 0 <= i < |attempts| ==> attempts[i].checkedAt <= EndOf(attempts[i]))
    && forall i, j :: 0 <= i < j < |attempts| ==> EndOf(attempts[i]) <= attempts[j].checkedAt
  }

  lemma SequentialThen(before: seq<Attempt>, a: Attempt)
    requires Sequential(before) && a.checkedAt <= EndOf(a)
    requires forall i :: 0 <= i < |before| ==> EndOf(before[i]) <= a.checkedAt
    ensures Sequential(before + [a])
  {
  }

  /** The counter is the length of the last stretch, and lives a window from the last event. */
  ghost predicate Mirrors(c: Cache, log: seq<Instant>, limit: nat, window: nat) {
    && (log == [] ==> c == Missing)
    && (log != [] ==> c == Entry(Stretch(log, window), log[|log| - 1] + window) && Stretch(log, window) <= limit)
  }

  lemma MirrorAdmits(c: Cache, log: seq<Instant>, limit: nat, window: nat, now: Instant)
    requires Mirrors(c, log, limit, window)
    ensures Admits(c, limit, now) <==> Admitted(log, limit, window, now)
  {
  }

  lemma MirrorCounts(c: Cache, log: seq<Instant>, limit: nat, window: nat, checkedAt: Instant, at: Instant)
    requires Mirrors(c, log, limit, window) && Admits(c, limit, checkedAt) && checkedAt <= at
    ensures Mirrors(Entry(Get(c, at) + 1, at + window), log + [at], limit, window)
  {
    assert (log + [at])[..|log|] == log;
    if log != [] {
      assert (log + [at])[|log| - 1] == log[|log| - 1];
    }
  }

  lemma {:induction false} MirrorHolds(attempts: seq<Attempt>, limit: nat, window: nat)
    requires Sequential(attempts)
    ensures Mirrors(CacheAfter(attempts, limit, window), Log(attempts, limit, window), limit, window)
  {
    if attempts != [] {
      var init, a := attempts[..|attempts| - 1], attempts[|attempts| - 1];
      MirrorHolds(init, limit, window);
      var c, log := CacheAfter(init, limit, window), Log(init, limit, window);
      MirrorAdmits(c, log, limit, window, a.checkedAt);
      if Admits(c, limit, a.checkedAt) && a.action.Count? {
        MirrorCounts(c, log, limit, window, a.checkedAt, a.action.at);
      }
    }
  }

  /**
    Exactly when an attempt is admitted: after a pause of a whole window, or while the current stretch of
    events, each within a window of the one before, is shorter than the limit.
  */
  lemma AdmittedExactly(before: seq<Attempt>, limit: nat, window: nat, now: Instant)
    requires Sequential(before)
    ensures Admits(CacheAfter(before, limit, window), limit, now)
       <==> Admitted(Log(before, limit, window), limit, window, now)
  {
    MirrorHolds(before, limit, window);
    MirrorAdmits(CacheAfter(before, limit, window), Log(before, limit, window), limit, window, now);
  }

  /******* The bound *******/

  ghost predicate Ascending(times: seq<Instant>) {
    forall i, j :: 0 <= i < j < |times| ==> times[i] <= times[j]
  }

  /** All events of a window that holds the last one belong to the last stretch. */
  lemma {:induction false} CountAtMostStretch(log: seq<Instant>, window: nat, from: Instant)
    requires Ascending(log) && log != [] && from <= log[|log| - 1] < from + window
    ensures CountIn(log, from, from + window) <= Stretch(log, window)
  {
    if |log| > 1 {
      var init := log[..|log| - 1];
      if init[|init| - 1] >= from {
        CountAtMostStretch(init, window, from);
      } else {
        NoneBefore(init, from, from + window);
      }
    }
  }

  lemma {:induction false} LogAscends(attempts: seq<Attempt>, limit: nat, window: nat)
    requires Sequential(attempts)
    ensures Ascending(Log(attempts, limit, window))
    ensures forall t :: t in Log(attempts, limit, window) ==> attempts != [] && t <= EndOf(attempts[|attempts| - 1])
  {
    if attempts != [] {
      var init := attempts[..|attempts| - 1];
      LogAscends(init, limit, window);
      var log := Log(init, limit, window);
      assert forall i :: 0 <= i < |log| ==> log[i] in log;
      assert init != [] ==> EndOf(attempts[|init| - 1]) <= attempts[|init|].checkedAt;
    }
  }

  /** Any half-open interval of a window's length holds at most `limit` of the events counted since the last clear. */
  lemma {:induction false} CountsAreBounded(attempts: seq<Attempt>, limit: nat, window: nat, from: Instant)
    requires Sequential(attempts)
    ensures CountIn(Log(attempts, limit, window), from, from + window) <= limit
  {
    if attempts != [] {
      CountsAreBounded(attempts[..|attempts| - 1], limit, window, from);
      MirrorHolds(attempts, limit, window);
      LogAscends(attempts, limit, window);
      var log := Log(attempts, limit, window);
      if log != [] && from <= log[|log| - 1] < from + window {
        CountAtMostStretch(log, window, from);
      }
    }
  }

  /** A pause of a window after the last counted event is always enough. */
  lemma PauseIsEnough(before: seq<Attempt>, limit: nat, window: nat, now: Instant)
    requires Sequential(before) && limit > 0
    requires var log := Log(before, limit, window); log != [] ==> log[|log| - 1] + window <= now
    ensures Admits(CacheAfter(before, limit, window), limit, now)
  {
    AdmittedExactly(before, limit, window, now);
  }

  /******* A window that slides with the events *******/

  /** The times of requests that each come one second before a window has passed since the previous one. */
  function Nth(i: nat, window: nat): Instant {
    if i == 0 then 0 else Nth(i - 1, window) + window - 1
  }

  function Trickle(n: nat, window: nat): seq<Attempt> {
    if n == 0 then [] else Trickle(n - 1, window) + [Attempt(Nth(n - 1, window), Count(Nth(n - 1, window)))]
  }

  lemma {:induction false} TrickleSequential(n: nat, window: nat)
    requires window > 0
    ensures Sequential(Trickle(n, window)) && |Trickle(n, window)| == n
    ensures forall i :: 0 <= i < n ==> EndOf(Trickle(n, window)[i]) <= Nth(n, window)
  {
    if n > 0 {
      TrickleSequential(n - 1, window);
    }
  }

  function Times(n: nat, window: nat): (r: seq<Instant>)
    requires window > 0
    ensures |r| == n && forall i :: 0 <= i < n ==> r[i] <= Nth(n, window) - (window - 1)
  {
    if n == 0 then [] else Times(n - 1, window) + [Nth(n - 1, window)]
  }

  lemma {:induction false} TimesStretch(n: nat, window: nat)
    requires window > 0
    ensures Stretch(Times(n, window), window) == n
  {
    if n > 0 {
      TimesStretch(n - 1, window);
      assert Times(n, window)[..n - 1] == Times(n - 1, window);
    }
  }

  lemma NextRequest(n: nat, window: nat)
    requires window > 0 && n > 0
    ensures var t := Nth(n - 1, window);
            && Trickle(n, window) == Trickle(n - 1, window) + [Attempt(t, Count(t))]
            && Times(n, window) == Times(n - 1, window) + [t]
  {
  }

  lemma TimesAdmit(n: nat, limit: nat, window: nat, now: Instant)
    requires window > 0 && n < limit
    ensures Admitted(Times(n, window), limit, window, now)
  {
    TimesStretch(n, window);
  }

  lemma LogCount(before: seq<Attempt>, limit: nat, window: nat, at: Instant)
    requires Admitted(Log(before, limit, window), limit, window, at)
    ensures Log(before + [Attempt(at, Count(at))], limit, window) == Log(before, limit, window) + [at]
  {
    assert (before + [Attempt(at, Count(at))])[..|before|] == before;
  }

  lemma {:induction false} TrickleLog(n: nat, limit: nat, window: nat)
    requires window > 0 && n <= limit
    ensures Log(Trickle(n, window), limit, window) == Times(n, window)
  {
    if n > 0 {
      NextRequest(n, window);
      hide *;
      TrickleLog(n - 1, limit, window);
      TimesAdmit(n - 1, limit, window, Nth(n - 1, window));
      LogCount(Trickle(n - 1, window), limit, window, Nth(n - 1, window));
    }
  }

  /** No window holds three of the requests: the first and the third are twice a second less than a window apart. */
  lemma {:induction false} AtMostTwo(n: nat, window: nat, from: Instant)
    requires window >= 2
    ensures InWindow(Times(n, window), from, window) <= 2
  {
    if n == 0 {
      NoneBefore(Times(0, window), from, from + window);
    } else {
      hide CountIn;
      AtMostTwo(n - 1, window, from);
      if n > 1 && from <= Nth(n - 1, window) < from + window {
        LastTwo(n, window, from);
      } else {
        CountPush(Times(n - 1, window), Nth(n - 1, window), from, from + window);
        NoneBefore(Times(0, window), from, from + window);
      }
    }
  }

  lemma LastTwo(n: nat, window: nat, from: Instant)
    requires window >= 2 && n > 1 && Nth(n - 1, window) < from + window
    ensures CountIn(Times(n, window), from, from + window) <= 2
  {
    assert Nth(n - 1, window) == Nth(n - 2, window) + window - 1;
    NoneBefore(Times(n - 2, window), from, from + window);
    NextRequest(n, window);
    NextRequest(n - 1, window);
    hide *;
    CountPush(Times(n - 2, window), Nth(n - 2, window), from, from + window);
    CountPush(Times(n - 1, window), Nth(n - 1, window), from, from + window);
  }

  /**
    Not a sliding window: requests of which no window ever holds more than two, the refused one included, are
    refused all the same once there have been `limit` of them without a pause.
  */
  lemma TrickleIsRefused(limit: nat, window: nat)
    requires window >= 2 && limit >= 2
    ensures Sequential(Trickle(limit, window)) && |Log(Trickle(limit, window), limit, window)| == limit
    ensures forall from :: InWindow(Log(Trickle(limit, window), limit, window) + [Nth(limit, window)], from, window) <= 2
    ensures !Admits(CacheAfter(Trickle(limit, window), limit, window), limit, Nth(limit, window))
  {
    hide Stretch, Log, Trickle, CacheAfter, InWindow;
    TrickleSequential(limit, window);
    TrickleLog(limit, limit, window);
    TimesStretch(limit, window);
    AdmittedExactly(Trickle(limit, window), limit, window, Nth(limit, window));
    forall from ensures InWindow(Times(limit, window) + [Nth(limit, window)], from, window) <= 2 {
      AtMostTwo(limit + 1, window, from);
      assert Times(limit + 1, window) == Times(limit, window) + [Nth(limit, window)];
    }
  }

  /******* API rate limiting and token refreshes *******/

  const REFRESH_LIMIT := 50
  const REFRESH_WINDOW := 300

  class RateLimiter {
    var cache: map<string, Cache>

    constructor ()
      ensures cache == map[]
    {
      cache := map[];
    }

    function Of(key: string): Cache
      reads this
    {
      if key in cache then cache[key] else Missing
    }

    /** Admits a request exactly as the log of earlier admitted requests for its key says. */
    method CheckRateLimit(key: string, limit: nat, window: nat, now: Instant, ghost before: seq<Attempt>)
        returns (allowed: bool)
      requires Of(key) == CacheAfter(before, limit, window) && Sequential(before + [Attempt(now, Count(now))])
      modifies this
      ensures Of(key) == CacheAfter(before + [Attempt(now, Count(now))], limit, window)
      ensures forall other :: other != key ==> Of(other) == old(Of(other))
      ensures allowed <==> Admitted(Log(before, limit, window), limit, window, now)
    {
      ghost var all := before + [Attempt(now, Count(now))];
      assert all[..|before|] == before;
      assert Sequential(before) by {
        assert forall i :: 0 <= i < |before| ==> before[i] == all[i];
      }
      AdmittedExactly(before, limit, window, now);
      var current := Get(Of(key), now);
      if current >= limit {
        return false;
      }
      cache := cache[key := Entry(current + 1, now + window)];
      return true;
    }

    method CheckRefresh(user: string, now: Instant, ghost before: seq<Attempt>) returns (allowed: bool)
      requires Of("refresh_limit:" + user) == CacheAfter(before, REFRESH_LIMIT, REFRESH_WINDOW)
      requires Sequential(before + [Attempt(now, Count(now))])
      modifies this
      ensures Of("refresh_limit:" + user)
           == CacheAfter(before + [Attempt(now, Count(now))], REFRESH_LIMIT, REFRESH_WINDOW)
      ensures forall other :: other != "refresh_limit:" + user ==> Of(other) == old(Of(other))
      ensures allowed <==> Admitted(Log(before, REFRESH_LIMIT, REFRESH_WINDOW), REFRESH_LIMIT, REFRESH_WINDOW, now)
    {
      allowed := CheckRateLimit("refresh_limit:" + user, REFRESH_LIMIT, REFRESH_WINDOW, now, before);
    }
  }
}
