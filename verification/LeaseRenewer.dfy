/** The background loop that keeps the licence lease alive. */
module LeaseRenewer {

  import opened Wrappers
  import opened Intervals
  import opened LicenceLease

  const MAX_SLEEP := 300

  /** The pause after a tick that did not raise. */
  function SleepSeconds(heartbeatMinutes: int): (seconds: int)
    ensures 20 <= seconds <= MAX_SLEEP
  {
    var asked := if heartbeatMinutes == 0 then 5 else heartbeatMinutes;
    var minutes := if asked < 1 then 1 else asked;
    var capped := if minutes * 30 < MAX_SLEEP then minutes * 30 else MAX_SLEEP;
    if capped < 20 then 20 else capped
  }

  /** The pause after a tick that raised. */
  const RETRY_SLEEP := 60

  /**
    One tick: either something raises before the state file is written, some time after the wake-up, or the
    server answers with a grant, with how long that lasts from the request on, and the answer's delay.
  */
  datatype Tick = Raised(after: nat) | Answered(grant: Remote, lifetime: int, jitter: int, delay: nat)

  /** The state file from one publish to the next. */
  datatype Segment = Segment(from: Instant, upto: Instant, file: Saved)

  /** The granted lease verifies for this activation on this device. */
  predicate Verifies(grant: Remote, device: string, id: string, v: Verifier) {
    && grant.activationId == id && Strip(grant.leaseToken) != ""
    && (v.enabled ==> match v.decode(Strip(grant.leaseToken))
                      case BadLease => false
                      case Lease(dev, act, _) => dev == device && act == id)
  }

  /** How much later than due the wake-up before tick i is, because of the ticks that raised just before it. */
  function Lost(ticks: seq<Tick>, i: nat): nat
    requires i <= |ticks|
  {
    if i == 0 || ticks[i - 1].Answered? then 0 else Lost(ticks, i - 1) + ticks[i - 1].after + RETRY_SLEEP
  }

  /** A good grant lasts long enough, and the heartbeat it asks for, if any, means short pauses. */
  predicate GoodTick(tick: Tick, device: string, id: string, sleep: int, d: int, v: Verifier)
    requires tick.Answered?
  {
    && Verifies(tick.grant, device, id, v)
    && tick.delay <= d && tick.lifetime >= sleep + 2 * d
    && (tick.grant.heartbeatMinutes == 0 || SleepSeconds(tick.grant.heartbeatMinutes) <= sleep)
  }

  /** Each due round has its answer within d, retries included, and every answer is good. */
  ghost predicate GoodTicks(ticks: seq<Tick>, device: string, id: string, sleep: int, d: int, v: Verifier) {
    && (forall i :: 0 <= i <= |ticks| ==> Lost(ticks, i) <= d)
    && forall i :: 0 <= i < |ticks| && ticks[i].Answered? ==>
         Lost(ticks, i) + ticks[i].delay <= d && GoodTick(ticks[i], device, id, sleep, d, v)
  }

  /**
    The file can be renewed after pauses of at most `sleep`, and its lease outlasts a tick that wakes by `wake`
    and is answered within d.
  */
  predicate Covered(p: Saved, device: string, id: string, wake: Instant, sleep: int, d: int, v: Verifier) {
    && Steady(p, v) && CanCheckIn(p) && p.activationId == id && p.device == device
    && p.leaseExpiresAt.Some? && wake + d <= p.leaseExpiresAt.value
    && SleepSeconds(p.heartbeatMinutes) <= sleep
  }

  lemma CoveredIsActive(p: Saved, device: string, id: string, wake: Instant, sleep: int, d: int, v: Verifier)
    requires Covered(p, device, id, wake, sleep, d, v) && id != ""
    ensures forall t :: t <= wake + d ==> Derive(p, t, v).0 == Active
  {
  }

  /** A grant, forced or not, covers every wake-up due within `sleep` seconds of its answer. */
  lemma GrantCovers(p: Saved, url: string, device: string, grant: Remote, requested: Instant, later: Instant,
                    jitter: int, sleep: int, d: int, v: Verifier, wake: Instant)
    requires p.activationId != "" && url != "" && (p.refreshToken != "" || p.activationToken != "")
    requires Verifies(grant, device, p.activationId, v)
    requires Before(requested + sleep + 2 * d, grant.leaseExpiresAt)
    requires SleepSeconds(if grant.heartbeatMinutes != 0 then grant.heartbeatMinutes else p.heartbeatMinutes) <= sleep
    requires later <= requested + d && wake <= later + sleep
    ensures Covered(ApplyRemote(p, url, device, grant, later, jitter, v), device, p.activationId, wake, sleep, d, v)
  {
  }

  /** A round due by `due` that wakes in time to be answered leaves the file covered for the next one. */
  lemma RoundCovers(p: Saved, device: string, id: string, skew: int, due: Instant, wake: Instant, sleep: int,
                    d: int, tick: Tick, v: Verifier)
    requires d >= 0 && skew >= sleep - 1 + d && id != "" && Covered(p, device, id, due, sleep, d, v)
    requires tick.Answered? && wake + tick.delay <= due + d && GoodTick(tick, device, id, sleep, d, v)
    ensures var later := Published(p, skew, wake, tick);
            var q := Refreshed(p, device, false, skew, wake, AnswerAt(tick, wake), later, v);
            later <= due + d && Covered(WriteBack(q, later, v), device, id, later + sleep, sleep, d, v)
  {
    var later := Published(p, skew, wake, tick);
    if !NotDue(p, wake, skew) {
      GrantCovers(p, p.serverUrl, device, AnswerAt(tick, wake).remote, wake, later, tick.jitter, sleep, d, v, later + sleep);
    }
  }

  function AnswerAt(tick: Tick, wake: Instant): Answer
    requires tick.Answered?
  {
    Granted(tick.grant.(leaseExpiresAt := Some(wake + tick.lifetime)), tick.jitter)
  }

  /** When a round is over: at once if nothing is due, else when the answer is in. */
  function Published(p: Saved, skew: int, wake: Instant, tick: Tick): Instant
    requires tick.Answered?
  {
    if NotDue(p, wake, skew) then wake else wake + tick.delay
  }

  /**
    From an activation on, the derived state is active at every instant, however many rounds the loop makes:
    if each due round has a good grant within d, failed attempts and their pauses included, no pause is longer
    than `sleep` (300 always is enough), and leases are renewed `sleep - 1 + d` early.
  */
  method RenewerLoop(c: Client, activated: Instant, firstWake: Instant, sleep: int, d: int, ticks: seq<Tick>, id: string)
    returns (log: seq<Segment>)
    requires d >= 0 && c.skew >= sleep - 1 + d && id != ""
    requires activated <= firstWake <= activated + sleep
    requires Covered(c.file, c.device, id, activated + sleep, sleep, d, c.verifier)
    requires GoodTicks(ticks, c.device, id, sleep, d, c.verifier)
    modifies c`file
    ensures |log| == |ticks| + 1 && log[0].from == activated
    ensures forall i :: 0 < i < |log| ==> log[i].from == log[i - 1].upto
    ensures log[|ticks|].upto >= activated + 20 * |ticks| && log[|ticks|].file == c.file
    ensures forall i, t :: 0 <= i < |log| && log[i].from <= t <= log[i].upto ==>
              Derive(log[i].file, t, c.verifier).0 == Active
  {
    var published, wake := activated, firstWake;
    ghost var due := activated + sleep;
    log := [];
    for i := 0 to |ticks|
      invariant |log| == i && published <= wake <= due + Lost(ticks, i)
      invariant Covered(c.file, c.device, id, due, sleep, d, c.verifier)
      invariant published == if i == 0 then activated else log[i - 1].upto
      invariant i > 0 ==> log[0].from == activated
      invariant forall j :: 0 < j < i ==> log[j].from == log[j - 1].upto
      invariant wake >= activated + 20 * i
      invariant forall j, t :: 0 <= j < i && log[j].from <= t <= log[j].upto ==>
                  Derive(log[j].file, t, c.verifier).0 == Active
    {
      hide Derive, LeaseError, WriteBack, Steady, ApplyRemote, Verifies;
      var tick := ticks[i];
      CoveredIsActive(c.file, c.device, id, due, sleep, d, c.verifier);
      match tick
      case Raised(after) =>
        assert Lost(ticks, i + 1) <= d;
        log := log + [Segment(published, wake + after, c.file)];
        published, wake := wake + after, wake + after + RETRY_SLEEP;
      case Answered(_, _, _, _) =>
        var later := Published(c.file, c.skew, wake, tick);
        RoundCovers(c.file, c.device, id, c.skew, due, wake, sleep, d, tick, c.verifier);
        log := log + [Segment(published, later, c.file)];
        var _ := c.Refresh(false, wake, AnswerAt(tick, wake), later);
        due := later + sleep;
        published, wake := later, later + SleepSeconds(c.file.heartbeatMinutes);
    }
    CoveredIsActive(c.file, c.device, id, due, sleep, d, c.verifier);
    log := log + [Segment(published, wake, c.file)];
  }

  /******* The skew that is needed *******/

  /** A round that finds nothing due leaves a file that is active until the next round has its answer. */
  ghost predicate SkipKeepsActive(p: Saved, skew: int, wake: Instant, d: int, v: Verifier) {
    Steady(p, v) && NotDue(p, wake, skew) && Before(wake + d, p.leaseExpiresAt) ==>
      forall t :: wake <= t <= wake + SleepSeconds(p.heartbeatMinutes) + d ==> Derive(p, t, v).0 == Active
  }

  /** A file with this heartbeat whose lease runs out at the given time, next checked in at another. */
  function Renewable(heartbeat: int, expiry: Instant, due: Instant): Saved {
    DEFAULT_SAVED.(activationId := "a", local := Active, serverUrl := "s", refreshToken := "r",
                   leaseExpiresAt := Some(expiry), nextCheckInAt := Some(due), heartbeatMinutes := heartbeat)
  }

  /**
    A skew one second short of the pause and the delay is enough; with any smaller one a round may skip the
    check-in, sleep, and get the next answer only after the lease has run out.
  */
  lemma ShortSkewLapses(heartbeat: int, skew: int, d: int, wake: Instant, v: Verifier) returns (p: Saved)
    requires d >= 0 && skew < SleepSeconds(heartbeat) - 1 + d
    ensures Steady(p, v) && CanCheckIn(p) && p.heartbeatMinutes == heartbeat && Before(wake + d, p.leaseExpiresAt)
    ensures NotDue(p, wake, skew) && !NotDue(p, wake + SleepSeconds(heartbeat), skew)
    ensures forall answer: Answer, device :: Refreshed(p, device, false, skew, wake, answer, wake, v) == p
    ensures Derive(p, wake + SleepSeconds(heartbeat) + d, v).0 != Active
  {
    var expiry := wake + if skew + 1 < d then d else skew + 1;
    p := Renewable(heartbeat, expiry, wake + 1);
    assert Strip("") == "";
  }

  /** The exact skew for a given heartbeat: skipped rounds keep the lease alive if and only if it is long enough. */
  lemma SkewExact(heartbeat: int, skew: int, d: int, v: Verifier)
    requires d >= 0
    ensures (forall p: Saved, wake: Instant :: p.heartbeatMinutes == heartbeat ==> SkipKeepsActive(p, skew, wake, d, v))
       <==> skew >= SleepSeconds(heartbeat) - 1 + d
  {
    if skew >= SleepSeconds(heartbeat) - 1 + d {
      forall p: Saved, wake | p.heartbeatMinutes == heartbeat ensures SkipKeepsActive(p, skew, wake, d, v) {
      }
    } else {
      var p := ShortSkewLapses(heartbeat, skew, d, 0, v);
      assert !SkipKeepsActive(p, skew, 0, d, v);
    }
  }
}
