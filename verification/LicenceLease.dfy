/** The desktop client's licence lease: the stored state, what is derived from it, and check-ins. */
module LicenceLease {

  import opened Wrappers
  import opened Intervals

  datatype LocalState = Unactivated | Active | Grace | Expired | Revoked | Invalid

  /** Seconds on the client's clock. */
  /** What decoding a signed lease yields; `exp` is a required claim. */
  datatype Decoded = BadLease | Lease(device: string, activationId: string, exp: Instant)

  /** The configured public key, if any, and the opaque signature check. */
  datatype Verifier = Verifier(enabled: bool, decode: string -> Decoded)

  /** The state file. */
  datatype Saved = Saved(
    local: LocalState,
    lastError: string,
    activationId: string,
    refreshToken: string,
    activationToken: string,
    serverUrl: string,
    device: string,
    leaseToken: string,
    leaseExpiresAt: Option<Instant>,
    lastValidUntil: Option<Instant>,
    nextCheckInAt: Option<Instant>,
    heartbeatMinutes: int)

  const DEFAULT_SAVED := Saved(Unactivated, "", "", "", "", "", "", "", None, None, None, 0)

  const INVALID_LEASE := "invalid_lease"
  const DEVICE_MISMATCH := "device_mismatch"
  const ACTIVATION_MISMATCH := "activation_mismatch"
  const TOKEN_INVALID := "令牌无效"
  const RENEW_TOKEN_INVALID := "续签令牌无效"
  const LEASE_ERRORS: set<string> := {INVALID_LEASE, DEVICE_MISMATCH, ACTIVATION_MISMATCH}
  const TOKEN_ERRORS: set<string> := {TOKEN_INVALID, RENEW_TOKEN_INVALID}

  /******* Text *******/

  predicate IsSpace(c: char) {
    c == ' ' || c == '\t' || c == '\n' || c == '\r'
  }

  function Strip(s: string): string {
    if s == "" then s
    else if IsSpace(s[0]) then Strip(s[1..])
    else if IsSpace(s[|s| - 1]) then Strip(s[..|s| - 1])
    else s
  }

  predicate OccursAt(text: string, word: string, i: nat) {
    i + |word| <= |text| && text[i..i + |word|] == word
  }

  predicate Contains(text: string, word: string) {
    exists i: nat | i <= |text| :: OccursAt(text, word, i)
  }

  lemma ContainsItself(word: string)
    ensures Contains(word, word)
  {
    assert OccursAt(word, word, 0);
  }

  lemma NotContained(text: string, word: string)
    requires word != "" && forall i :: 0 <= i < |text| ==> text[i] != word[0]
    ensures !Contains(text, word)
  {
    forall i: nat | i <= |text| ensures !OccursAt(text, word, i) {
      assert i + |word| <= |text| ==> text[i..i + |word|][0] == text[i];
    }
  }

  /******* Deriving the state *******/

  predicate Before(now: Instant, limit: Option<Instant>) {
    limit.Some? && now <= limit.value
  }

  /** The error of the stored lease, or "" if it verifies. */
  function LeaseError(p: Saved, expectedDevice: string, v: Verifier): string {
    if Strip(p.leaseToken) == "" || !v.enabled then ""
    else match v.decode(Strip(p.leaseToken))
      case BadLease => INVALID_LEASE
      case Lease(device, activationId, _) =>
        if device != expectedDevice then DEVICE_MISMATCH
        else if activationId != p.activationId then ACTIVATION_MISMATCH
        else ""
  }

  /** Verification fills in a missing lease expiry from the token. */
  function Stamp(p: Saved, v: Verifier): Saved {
    if Strip(p.leaseToken) == "" || !v.enabled || p.leaseExpiresAt.Some? then p
    else match v.decode(Strip(p.leaseToken))
      case BadLease => p
      case Lease(_, _, exp) => if exp == 0 then p else p.(leaseExpiresAt := Some(exp))
  }

  /** Invalid with an error that no later derivation looks behind. */
  predicate IsSticky(p: Saved) {
    p.local == Invalid && Strip(p.lastError) in LEASE_ERRORS + TOKEN_ERRORS
  }

  function Derive(p: Saved, now: Instant, v: Verifier): (LocalState, string) {
    if p.activationId == "" then (Unactivated, "")
    else if p.local == Revoked then (Revoked, Strip(p.lastError))
    else if IsSticky(p) then (Invalid, Strip(p.lastError))
    else
      var error := LeaseError(p, p.device, v);
      if error != "" then (Invalid, error)
      else if Before(now, p.leaseExpiresAt) then (Active, "")
      else if Before(now, p.lastValidUntil) then (Grace, "")
      else (Expired, p.lastError)
  }

  /** The derivation reads the lease expiry before verification fills it in; only the write-back keeps the stamp. */
  function WriteBack(p: Saved, now: Instant, v: Verifier): Saved {
    var (state, error) := Derive(p, now, v);
    if p.local == state && p.lastError == error then p
    else
      var verified := p.activationId != "" && p.local != Revoked && !IsSticky(p) && LeaseError(p, p.device, v) == "";
      (if verified then Stamp(p, v) else p).(local := state, lastError := error)
  }

  predicate Allows(state: LocalState) {
    state == Active || state == Grace
  }

  /******* Check-ins *******/

  /** What the licence server answers; an empty field leaves the stored one alone. */
  datatype Remote = Remote(
    activationId: string,
    refreshToken: string,
    activationToken: string,
    leaseToken: string,
    leaseExpiresAt: Option<Instant>,
    lastValidUntil: Option<Instant>,
    heartbeatMinutes: int)

  datatype Answer = Granted(remote: Remote, jitter: int) | Refused(status: int, message: string)

  function Or(a: string, b: string): string {
    if a != "" then a else b
  }

  function OrElse<T>(a: Option<T>, b: Option<T>): Option<T> {
    if a.Some? then a else b
  }

  function NextCheckIn(now: Instant, heartbeatMinutes: int, jitter: int): Instant {
    var minutes := if heartbeatMinutes == 0 then 30 else if heartbeatMinutes < 1 then 1 else heartbeatMinutes;
    now + minutes * 60 - jitter
  }

  function ApplyRemote(p: Saved, url: string, device: string, remote: Remote, now: Instant, jitter: int, v: Verifier): Saved {
    var heartbeat := if remote.heartbeatMinutes != 0 then remote.heartbeatMinutes else p.heartbeatMinutes;
    var q := Saved(
      Active, "", Or(remote.activationId, p.activationId), Or(remote.refreshToken, p.refreshToken),
      Or(remote.activationToken, p.activationToken), url, device, Or(remote.leaseToken, p.leaseToken),
      OrElse(remote.leaseExpiresAt, p.leaseExpiresAt), OrElse(remote.lastValidUntil, p.lastValidUntil),
      Some(NextCheckIn(now, heartbeat, jitter)), heartbeat);
    var error := LeaseError(q, device, v);
    if error != "" then q.(local := Invalid, lastError := error) else Stamp(q, v)
  }

  function ResolveErrorState(message: string, fallback: LocalState): LocalState {
    var text := Strip(message);
    if Contains(text, "撤销") then Revoked
    else if Contains(text, "过期") then Expired
    else if Contains(text, TOKEN_INVALID) || Contains(text, RENEW_TOKEN_INVALID)
         || Contains(text, "不存在") || Contains(text, "不可用") then Invalid
    else fallback
  }

  function Fallback(p: Saved, now: Instant, status: int): LocalState {
    if Before(now, p.lastValidUntil) then Grace
    else if status >= 500 then Expired
    else Invalid
  }

  function ApplyRefusal(p: Saved, device: string, now: Instant, status: int, message: string): Saved {
    p.(device := Or(p.device, device), local := ResolveErrorState(message, Fallback(p, now, status)), lastError := message)
  }

  predicate CanCheckIn(p: Saved) {
    p.activationId != "" && p.serverUrl != "" && (p.refreshToken != "" || p.activationToken != "")
  }

  /** Neither the heartbeat nor the lease is due yet. */
  predicate NotDue(p: Saved, now: Instant, skew: int) {
    && p.nextCheckInAt.Some? && now < p.nextCheckInAt.value
    && p.leaseExpiresAt.Some? && now + skew < p.leaseExpiresAt.value
  }

  /** The file a refresh leaves before the closing status write-back. */
  function Refreshed(p: Saved, device: string, force: bool, skew: int, now: Instant, answer: Answer, later: Instant, v: Verifier): Saved {
    if !CanCheckIn(p) || (!force && NotDue(p, now, skew)) then p
    else match answer
      case Granted(remote, jitter) => ApplyRemote(p, p.serverUrl, device, remote, later, jitter, v)
      case Refused(status, message) => ApplyRefusal(p, device, now, status, message)
  }

  /** The client process: the state file and the operations on it. */
  class Client {
    const verifier: Verifier
    const device: string
    const skew: int
    var file: Saved

    constructor (verifier: Verifier, device: string, skew: int, file: Saved)
      ensures this.verifier == verifier && this.device == device && this.skew == skew && this.file == file
    {
      this.verifier, this.device, this.skew, this.file := verifier, device, skew, file;
    }

    /** Derives the state of a loaded payload and writes it back if it has changed. */
    method PublicStatus(payload: Saved, now: Instant) returns (state: LocalState)
      requires payload == file
      modifies this`file
      ensures state == Derive(old(file), now, verifier).0
      ensures file == WriteBack(old(file), now, verifier)
    {
      var (derived, error) := Derive(payload, now, verifier);
      state := derived;
      if payload.local != state || payload.lastError != error {
        var p := payload;
        if p.activationId != "" && p.local != Revoked && !IsSticky(p) && LeaseError(p, p.device, verifier) == "" {
          p := Stamp(p, verifier);
        }
        file := p.(local := state, lastError := error);
      }
    }

    method Status(now: Instant) returns (state: LocalState)
      modifies this`file
      ensures state == Derive(old(file), now, verifier).0
      ensures file == WriteBack(old(file), now, verifier)
    {
      state := PublicStatus(file, now);
    }

    /** One refresh: the request starts at `now` and its answer, if one is asked for, is in at `later`. */
    method Refresh(force: bool, now: Instant, answer: Answer, later: Instant) returns (state: LocalState)
      modifies this`file
      ensures var p := Refreshed(old(file), device, force, skew, now, answer, later, verifier);
        state == Derive(p, later, verifier).0 && file == WriteBack(p, later, verifier)
    {
      var current := file;
      if !CanCheckIn(current) || (!force && NotDue(current, now, skew)) {
        state := PublicStatus(current, later);
        return;
      }
      match answer {
        case Granted(remote, jitter) =>
          file := ApplyRemote(current, current.serverUrl, device, remote, later, jitter, verifier);
        case Refused(status, message) =>
          file := ApplyRefusal(current, device, now, status, message);
      }
      state := PublicStatus(file, later);
    }

    /** A refused activation raises and leaves the file alone. */
    method Activate(url: string, answer: Answer, later: Instant) returns (state: Option<LocalState>)
      modifies this`file
      ensures answer.Refused? ==> state.None? && file == old(file)
      ensures answer.Granted? ==>
        var p := ApplyRemote(old(file), url, device, answer.remote, later, answer.jitter, verifier);
        state == Some(Derive(p, later, verifier).0) && file == WriteBack(p, later, verifier)
    {
      if answer.Refused? { return None; }
      file := ApplyRemote(file, url, device, answer.remote, later, answer.jitter, verifier);
      var derived := PublicStatus(file, later);
      state := Some(derived);
    }

    /** Whatever the server says, the file is reset. */
    method Deactivate(now: Instant) returns (state: LocalState)
      modifies this`file
      ensures state == Unactivated && file == DEFAULT_SAVED.(device := device)
    {
      file := DEFAULT_SAVED.(device := device);
      state := PublicStatus(file, now);
    }
  }

  /******* The deadline *******/

  /** Activated, neither revoked nor stuck on an error, with a lease that verifies. */
  predicate Steady(p: Saved, v: Verifier) {
    p.activationId != "" && p.local != Revoked && !IsSticky(p) && LeaseError(p, p.device, v) == ""
  }

  /** Verification has nothing to fill in. */
  predicate Stamped(p: Saved, v: Verifier) {
    Stamp(p, v) == p
  }

  function Later(a: Option<Instant>, b: Option<Instant>): Option<Instant> {
    if a.None? then b else if b.None? then a else if a.value < b.value then b else a
  }

  function Deadline(p: Saved): Option<Instant> {
    Later(p.leaseExpiresAt, p.lastValidUntil)
  }

  /** Business use is allowed exactly up to the deadline. */
  lemma AllowedUpToDeadline(p: Saved, now: Instant, v: Verifier)
    requires Steady(p, v)
    ensures Allows(Derive(p, now, v).0) <==> Before(now, Deadline(p))
    ensures Derive(p, now, v).0 == Active <==> Before(now, p.leaseExpiresAt)
  {
  }

  /** A status read neither ends steadiness nor moves the deadline, when verification has nothing to fill in. */
  lemma WriteBackKeepsDeadline(p: Saved, now: Instant, v: Verifier)
    requires Steady(p, v) && Stamped(p, v)
    ensures Steady(WriteBack(p, now, v), v) && Stamped(WriteBack(p, now, v), v)
    ensures WriteBack(p, now, v).leaseExpiresAt == p.leaseExpiresAt
    ensures WriteBack(p, now, v).lastValidUntil == p.lastValidUntil
  {
    assert Strip("") == "";
  }

  /** The exact condition: only a read that both fills in the expiry and writes it back moves the lease. */
  lemma WriteBackKeepsLeaseIff(p: Saved, now: Instant, v: Verifier)
    requires Steady(p, v)
    ensures WriteBack(p, now, v).leaseExpiresAt == p.leaseExpiresAt
       <==> Stamped(p, v) || (p.local, p.lastError) == Derive(p, now, v)
  {
  }

  /** Without a stored expiry, two reads at the same instant may disagree: the first one revives the lease. */
  lemma UnstampedReadRevives(p: Saved, now: Instant, v: Verifier)
    requires Steady(p, v) && !Stamped(p, v) && p.local == Active && Before(now, Stamp(p, v).leaseExpiresAt)
    ensures Derive(p, now, v).0 != Active
    ensures Derive(WriteBack(p, now, v), now, v).0 == Active
  {
  }

  /** Every check-in whose lease verifies leaves a steady and stamped file, active up to the granted expiry. */
  lemma GrantIsSteady(p: Saved, url: string, device: string, remote: Remote, now: Instant, jitter: int, v: Verifier)
    requires var q := ApplyRemote(p, url, device, remote, now, jitter, v); q.activationId != "" && q.local == Active
    ensures var q := ApplyRemote(p, url, device, remote, now, jitter, v);
      && Steady(q, v) && Stamped(q, v)
      && (remote.leaseExpiresAt.Some? ==> q.leaseExpiresAt == remote.leaseExpiresAt)
  {
  }

  /** A check-in whose lease does not verify sticks: no status read gets behind it, at any time. */
  lemma BadGrantSticks(p: Saved, url: string, device: string, remote: Remote, now: Instant, jitter: int, t: Instant, v: Verifier)
    requires var q := ApplyRemote(p, url, device, remote, now, jitter, v); q.activationId != "" && q.local != Active
    ensures Derive(ApplyRemote(p, url, device, remote, now, jitter, v), t, v).0 == Invalid
    ensures ApplyRemote(p, url, device, remote, now, jitter, v).lastError in LEASE_ERRORS
  {
    assert Strip(INVALID_LEASE) == INVALID_LEASE && Strip(DEVICE_MISMATCH) == DEVICE_MISMATCH
        && Strip(ACTIVATION_MISMATCH) == ACTIVATION_MISMATCH;
  }

  /******* Refused check-ins *******/

  /** A refusal that revokes, or that later derivations take for a verdict on the lease or the token. */
  predicate Harmful(p: Saved, now: Instant, status: int, message: string) {
    var text := Strip(message);
    || Contains(text, "撤销")
    || text in TOKEN_ERRORS
    || (text in LEASE_ERRORS && status < 500 && !Before(now, p.lastValidUntil))
  }

  lemma LeaseErrorsHoldNoKeyword(text: string)
    requires text in LEASE_ERRORS
    ensures !Contains(text, "撤销") && !Contains(text, "过期") && !Contains(text, TOKEN_INVALID)
    ensures !Contains(text, RENEW_TOKEN_INVALID) && !Contains(text, "不存在") && !Contains(text, "不可用")
  {
    NotContained(text, "撤销");
    NotContained(text, "过期");
    NotContained(text, TOKEN_INVALID);
    NotContained(text, RENEW_TOKEN_INVALID);
    NotContained(text, "不存在");
    NotContained(text, "不可用");
  }

  lemma TokenErrorsAreInvalid(text: string)
    requires text in TOKEN_ERRORS
    ensures !Contains(text, "撤销") && !Contains(text, "过期")
    ensures Contains(text, TOKEN_INVALID) || Contains(text, RENEW_TOKEN_INVALID)
  {
    NotContained(text, "撤销");
    NotContained(text, "过期");
    ContainsItself(text);
  }

  /** A refused check-in keeps the file steady if and only if it is not harmful; it never touches the lease or the grace limit. */
  lemma RefusalKeepsSteadyIff(p: Saved, device: string, now: Instant, status: int, message: string, v: Verifier)
    requires Steady(p, v) && p.device != ""
    ensures Steady(ApplyRefusal(p, device, now, status, message), v) <==> !Harmful(p, now, status, message)
    ensures Deadline(ApplyRefusal(p, device, now, status, message)) == Deadline(p)
  {
    var text := Strip(message);
    if text in LEASE_ERRORS { LeaseErrorsHoldNoKeyword(text); }
    if text in TOKEN_ERRORS { TokenErrorsAreInvalid(text); }
  }

  /** A revocation is not permanent: any refused check-in that does not itself say so lifts it. */
  lemma RevocationIsLifted(p: Saved, device: string, now: Instant, status: int, message: string, v: Verifier)
    requires p.local == Revoked && p.activationId != "" && p.device != "" && LeaseError(p, p.device, v) == ""
    ensures Allows(Derive(ApplyRefusal(p, device, now, status, message), now, v).0)
       <==> Before(now, Deadline(p)) && !Harmful(p, now, status, message)
  {
    var text := Strip(message);
    if text in LEASE_ERRORS { LeaseErrorsHoldNoKeyword(text); }
    if text in TOKEN_ERRORS { TokenErrorsAreInvalid(text); }
  }

  /******* Runs of status reads and refused check-ins *******/

  datatype Op = Read(at: Instant) | Refusal(at: Instant, status: int, message: string, later: Instant)

  function StepFile(p: Saved, device: string, op: Op, v: Verifier): Saved {
    match op
    case Read(at) => WriteBack(p, at, v)
    case Refusal(at, status, message, later) => WriteBack(ApplyRefusal(p, device, at, status, message), later, v)
  }

  function ObservedAt(op: Op): Instant {
    if op.Read? then op.at else op.later
  }

  /** The state a caller sees. */
  function Observed(p: Saved, device: string, op: Op, v: Verifier): LocalState {
    match op
    case Read(at) => Derive(p, at, v).0
    case Refusal(at, status, message, later) => Derive(ApplyRefusal(p, device, at, status, message), later, v).0
  }

  function FileAfter(p: Saved, device: string, ops: seq<Op>, v: Verifier): Saved {
    if ops == [] then p
    else StepFile(FileAfter(p, device, ops[..|ops| - 1], v), device, ops[|ops| - 1], v)
  }

  /** No refusal in the run is harmful; the grace limit that decides this never changes. */
  ghost predicate Harmless(p: Saved, ops: seq<Op>) {
    forall i :: 0 <= i < |ops| && ops[i].Refusal? ==> !Harmful(p, ops[i].at, ops[i].status, ops[i].message)
  }

  lemma HarmlessStep(p: Saved, device: string, op: Op, v: Verifier)
    requires Steady(p, v) && Stamped(p, v) && p.device != ""
    requires op.Refusal? ==> !Harmful(p, op.at, op.status, op.message)
    ensures var q := StepFile(p, device, op, v);
      && Steady(q, v) && Stamped(q, v) && q.device == p.device
      && q.leaseExpiresAt == p.leaseExpiresAt && q.lastValidUntil == p.lastValidUntil
    ensures Allows(Observed(p, device, op, v)) <==> Before(ObservedAt(op), Deadline(p))
    ensures Observed(p, device, op, v) ==
      if Before(ObservedAt(op), p.leaseExpiresAt) then Active
      else if Before(ObservedAt(op), p.lastValidUntil) then Grace else Expired
  {
    match op
    case Read(at) =>
      WriteBackKeepsDeadline(p, at, v);
    case Refusal(at, status, message, later) =>
      var q := ApplyRefusal(p, device, at, status, message);
      RefusalKeepsSteadyIff(p, device, at, status, message, v);
      WriteBackKeepsDeadline(q, later, v);
  }

  lemma {:induction false} HarmlessRun(p: Saved, device: string, ops: seq<Op>, v: Verifier)
    requires Steady(p, v) && Stamped(p, v) && p.device != "" && Harmless(p, ops)
    ensures var q := FileAfter(p, device, ops, v);
      && Steady(q, v) && Stamped(q, v) && q.device == p.device
      && q.leaseExpiresAt == p.leaseExpiresAt && q.lastValidUntil == p.lastValidUntil
  {
    if ops != [] {
      var n := |ops| - 1;
      assert Harmless(p, ops[..n]);
      HarmlessRun(p, device, ops[..n], v);
      HarmlessStep(FileAfter(p, device, ops[..n], v), device, ops[n], v);
    }
  }

  /** Whatever was read or refused before, business is allowed exactly up to the deadline of the last grant. */
  lemma DeadlineHoldsOverRuns(p: Saved, device: string, ops: seq<Op>, op: Op, v: Verifier)
    requires Steady(p, v) && Stamped(p, v) && p.device != "" && Harmless(p, ops + [op])
    ensures Allows(Observed(FileAfter(p, device, ops, v), device, op, v)) <==> Before(ObservedAt(op), Deadline(p))
  {
    assert (ops + [op])[|ops|] == op;
    assert Harmless(p, ops) by { assert forall i :: 0 <= i < |ops| ==> (ops + [op])[i] == ops[i]; }
    HarmlessRun(p, device, ops, v);
    HarmlessStep(FileAfter(p, device, ops, v), device, op, v);
  }

  function Rank(state: LocalState): nat {
    match state case Active => 0 case Grace => 1 case _ => 2
  }

  /** Observed states only go from active to grace to expired. */
  lemma ObservedStatesOnlyAge(p: Saved, device: string, ops: seq<Op>, i: nat, j: nat, v: Verifier)
    requires Steady(p, v) && Stamped(p, v) && p.device != "" && Harmless(p, ops)
    requires i < j < |ops| && ObservedAt(ops[i]) <= ObservedAt(ops[j])
    ensures var first := Observed(FileAfter(p, device, ops[..i], v), device, ops[i], v);
            var second := Observed(FileAfter(p, device, ops[..j], v), device, ops[j], v);
      && first in {Active, Grace, Expired} && second in {Active, Grace, Expired} && Rank(first) <= Rank(second)
  {
    HarmlessRun(p, device, ops[..i], v);
    HarmlessStep(FileAfter(p, device, ops[..i], v), device, ops[i], v);
    HarmlessRun(p, device, ops[..j], v);
    HarmlessStep(FileAfter(p, device, ops[..j], v), device, ops[j], v);
  }
}
