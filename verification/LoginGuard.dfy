/**
  The protection of logins: failures are counted per user name and cleared by a success; a user name that
  has failed too often gets the address locked out.
*/
module LoginGuard {

  import opened Intervals
  import opened WindowCounter

  const FAILED_ATTEMPT_LIMIT := 15
  const FAILED_ATTEMPT_TIMEOUT := 300
  const IP_LOCKOUT_DURATION := 900

  /** One login: when it is checked, and when its outcome is recorded if it gets that far. */
  datatype Login = Login(user: string, ip: string, checkedAt: Instant, recordedAt: Instant, ok: bool)

  datatype Verdict = Admit | Locked | TooMany

  /** The failure counters by user name, and until when addresses are locked out. */
  datatype State = State(counters: map<string, Cache>, locks: map<string, Instant>)

  function Counter(s: State, user: string): Cache {
    if user in s.counters then s.counters[user] else Missing
  }

  predicate IsLocked(s: State, ip: string, now: Instant) {
    ip in s.locks && now < s.locks[ip]
  }

  function Check(s: State, user: string, ip: string, now: Instant): Verdict {
    if IsLocked(s, ip, now) then Locked
    else if Get(Counter(s, user), now) >= FAILED_ATTEMPT_LIMIT then TooMany
    else Admit
  }

  function ActionOf(e: Login): Action {
    if e.ok then Clear(e.recordedAt) else Count(e.recordedAt)
  }

  function Step(s: State, e: Login): State {
    match Check(s, e.user, e.ip, e.checkedAt)
    case Locked => s
    case TooMany => s.(locks := s.locks[e.ip := e.checkedAt + IP_LOCKOUT_DURATION])
    case Admit => s.(counters := s.counters[e.user := Act(Counter(s, e.user), FAILED_ATTEMPT_TIMEOUT, ActionOf(e))])
  }

  function After(logins: seq<Login>): State {
    if logins == [] then State(map[], map[]) else Step(After(logins[..|logins| - 1]), logins[|logins| - 1])
  }

  ghost predicate InOrder(logins: seq<Login>) {
    && (forall i :: 0 <= i < |logins| ==> logins[i].checkedAt <= logins[i].recordedAt)
    && forall i, j :: 0 <= i < j < |logins| ==> logins[i].recordedAt <= logins[j].checkedAt
  }

  /** The guard as it is updated in place. */
  class Guard {
    var counters: map<string, Cache>
    var locks: map<string, Instant>

    function Now(): State
      reads this
    {
      State(counters, locks)
    }

    constructor ()
      ensures Now() == After([])
    {
      counters, locks := map[], map[];
    }

    method CheckLoginAttempt(user: string, ip: string, now: Instant) returns (allowed: bool)
      modifies this`locks
      ensures allowed <==> Check(old(Now()), user, ip, now) == Admit
      ensures locks == if Check(old(Now()), user, ip, now) == TooMany then old(locks)[ip := now + IP_LOCKOUT_DURATION]
                       else old(locks)
    {
      if ip in locks && now < locks[ip] {
        return false;
      }
      var attempts := Get(Counter(Now(), user), now);
      if attempts >= FAILED_ATTEMPT_LIMIT {
        locks := locks[ip := now + IP_LOCKOUT_DURATION];
        return false;
      }
      return true;
    }

    method RecordLoginFailure(user: string, now: Instant)
      modifies this`counters
      ensures counters == old(counters)[user := Act(Counter(old(Now()), user), FAILED_ATTEMPT_TIMEOUT, Count(now))]
    {
      var attempts := Get(Counter(Now(), user), now);
      counters := counters[user := Entry(attempts + 1, now + FAILED_ATTEMPT_TIMEOUT)];
    }

    method RecordLoginSuccess(user: string)
      modifies this`counters
      ensures counters == old(counters)[user := Missing]
    {
      counters := counters[user := Missing];
    }

    /** Whatever makes a login fail is counted; a success clears the counter. */
    method Authenticate(e: Login) returns (success: bool)
      modifies this
      ensures Now() == Step(old(Now()), e)
      ensures success <==> Check(old(Now()), e.user, e.ip, e.checkedAt) == Admit && e.ok
    {
      var allowed := CheckLoginAttempt(e.user, e.ip, e.checkedAt);
      if !allowed {
        return false;
      }
      if e.ok {
        RecordLoginSuccess(e.user);
      } else {
        RecordLoginFailure(e.user, e.recordedAt);
      }
      return e.ok;
    }
  }

  /******* Failures of one user name *******/

  /** The logins as the failure counter of one user name sees them. */
  function Seen(logins: seq<Login>, user: string): seq<Attempt> {
    if logins == [] then []
    else
      var init, e := logins[..|logins| - 1], logins[|logins| - 1];
      Seen(init, user) + [SeenAs(After(init), e, user)]
  }

  function SeenAs(s: State, e: Login, user: string): Attempt {
    Attempt(e.checkedAt, if e.user == user && !IsLocked(s, e.ip, e.checkedAt) then ActionOf(e) else Skip)
  }

  lemma {:induction false} SeenSequential(logins: seq<Login>, user: string)
    requires InOrder(logins)
    ensures Sequential(Seen(logins, user)) && |Seen(logins, user)| == |logins|
    ensures forall i :: 0 <= i < |logins| ==>
              Seen(logins, user)[i].checkedAt == logins[i].checkedAt && EndOf(Seen(logins, user)[i]) <= logins[i].recordedAt
  {
    if logins != [] {
      var init, e := logins[..|logins| - 1], logins[|logins| - 1];
      SeenSequential(init, user);
      SequentialThen(Seen(init, user), SeenAs(After(init), e, user));
      hide Sequential;
    }
  }

  lemma {:induction false} CounterSees(logins: seq<Login>, user: string)
    requires InOrder(logins)
    ensures Counter(After(logins), user) == CacheAfter(Seen(logins, user), FAILED_ATTEMPT_LIMIT, FAILED_ATTEMPT_TIMEOUT)
  {
    if logins != [] {
      var init, e := logins[..|logins| - 1], logins[|logins| - 1];
      CounterSees(init, user);
      StepSees(After(init), e, user);
      CacheNext(Seen(init, user), SeenAs(After(init), e, user), FAILED_ATTEMPT_LIMIT, FAILED_ATTEMPT_TIMEOUT);
    }
  }

  /** One login moves the counter of a user name as its attempt does. */
  lemma StepSees(s: State, e: Login, user: string)
    ensures var c, a := Counter(s, user), SeenAs(s, e, user);
            Counter(Step(s, e), user)
            == if Admits(c, FAILED_ATTEMPT_LIMIT, a.checkedAt) then Act(c, FAILED_ATTEMPT_TIMEOUT, a.action) else c
  {
  }

  /** The failures of a user name recorded since its last success. */
  function Failures(logins: seq<Login>, user: string): seq<Instant> {
    Log(Seen(logins, user), FAILED_ATTEMPT_LIMIT, FAILED_ATTEMPT_TIMEOUT)
  }

  /** Without a success, any half-open five minutes hold at most 15 recorded failures of one user name. */
  lemma FailuresAreBounded(logins: seq<Login>, user: string, from: Instant)
    requires InOrder(logins)
    ensures CountIn(Failures(logins, user), from, from + FAILED_ATTEMPT_TIMEOUT) <= FAILED_ATTEMPT_LIMIT
  {
    SeenSequential(logins, user);
    CountsAreBounded(Seen(logins, user), FAILED_ATTEMPT_LIMIT, FAILED_ATTEMPT_TIMEOUT, from);
  }

  /** From an address that is not locked out, a login gets through exactly as the log of failures says. */
  lemma LoginAdmittedExactly(logins: seq<Login>, user: string, ip: string, now: Instant)
    requires InOrder(logins)
    ensures Check(After(logins), user, ip, now) == Admit
       <==> !IsLocked(After(logins), ip, now)
            && Admitted(Failures(logins, user), FAILED_ATTEMPT_LIMIT, FAILED_ATTEMPT_TIMEOUT, now)
  {
    SeenSequential(logins, user);
    CounterSees(logins, user);
    AdmittedExactly(Seen(logins, user), FAILED_ATTEMPT_LIMIT, FAILED_ATTEMPT_TIMEOUT, now);
  }

  /******* Locked addresses *******/

  lemma {:induction false} LockLasts(logins: seq<Login>, i: nat, n: nat)
    requires i < n <= |logins|
    requires Check(After(logins[..i]), logins[i].user, logins[i].ip, logins[i].checkedAt) == TooMany
    ensures var ip, s := logins[i].ip, After(logins[..n]);
            ip in s.locks && s.locks[ip] >= logins[i].checkedAt + IP_LOCKOUT_DURATION
    decreases n
  {
    var last := n - 1;
    assert logins[..n][..last] == logins[..last];
    if last > i {
      LockLasts(logins, i, last);
    }
  }

  /**
    Once a login was refused for too many failures, its address is refused for the next 15 minutes, whatever
    the user name and however many refused logins come in between.
  */
  lemma LockedForItsDuration(logins: seq<Login>, i: nat, j: nat)
    requires i < j < |logins| && logins[j].ip == logins[i].ip
    requires Check(After(logins[..i]), logins[i].user, logins[i].ip, logins[i].checkedAt) == TooMany
    requires logins[j].checkedAt < logins[i].checkedAt + IP_LOCKOUT_DURATION
    ensures Check(After(logins[..j]), logins[j].user, logins[j].ip, logins[j].checkedAt) == Locked
    ensures After(logins[..j + 1]) == After(logins[..j])
  {
    LockLasts(logins, i, j);
    assert logins[..j + 1][..j] == logins[..j];
  }
}
