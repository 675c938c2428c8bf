/**
  The two-level lock around the licence token: a mutex for the threads of one process and a lock
  file between processes. The token is rotated by the server, so the read-request-publish sections
  of activation, check-in and deactivation must not overlap.
*/
module LicenceLock {

  datatype Thread = Thread(process: int, id: int)

  /** The server numbers the tokens it issues; `NoToken` is an empty field. */
  datatype Token = NoToken | Token(number: nat)

  datatype Operation = Activate | CheckIn | Deactivate

  datatype Pc =
    | Idle
    // an operation under the lock
    | WaitingForFile(op: Operation)
    | Entered(op: Operation)
    | HasRead(op: Operation, token: Token)
    | Answered(token: Token)
    | Done
    | FileReleased
    // a status read outside the lock
    | Loaded(token: Token)

  datatype Holder = Free | HeldBy(thread: Thread)

  datatype State = State(
    mutexes: map<int, Thread>,
    file: Holder,
    pcs: map<Thread, Pc>,
    stored: Token,
    issued: Token,
    count: nat,
    // history: an answer was lost on its way to the state file
    lost: bool)

  function PcOf(s: State, t: Thread): Pc {
    if t in s.pcs then s.pcs[t] else Idle
  }

  predicate Init(s: State) {
    s == State(map[], Free, map[], s.stored, s.stored, s.count, false) && (s.stored.Token? ==> s.stored.number < s.count)
  }

  datatype Event =
    | TakeMutex(t: Thread, op: Operation)
    | TakeFile(t: Thread)
    | FileTimesOut(t: Thread)
    | Load(t: Thread)
    | Accepted(t: Thread)
    | AnswerLost(t: Thread)
    | Refused(t: Thread)
    | Publish(t: Thread)
    | ReleaseFile(t: Thread)
    | ReleaseMutex(t: Thread)
    | StatusLoad(t: Thread)
    | StatusSkip(t: Thread)
    | StatusSave(t: Thread)
    | Crash(process: int)

  /** The server takes an activation always and the other requests with its last token only. */
  predicate Accepts(s: State, op: Operation, token: Token) {
    op.Activate? || (token.Token? && token == s.issued)
  }

  predicate Enabled(s: State, e: Event) {
    match e
    case TakeMutex(t, _) => PcOf(s, t).Idle? && t.process !in s.mutexes
    case TakeFile(t) => PcOf(s, t).WaitingForFile? && s.file.Free?
    case FileTimesOut(t) => PcOf(s, t).WaitingForFile?
    case Load(t) => PcOf(s, t).Entered?
    case Accepted(t) => PcOf(s, t).HasRead? && Accepts(s, PcOf(s, t).op, PcOf(s, t).token)
    case AnswerLost(t) => PcOf(s, t).HasRead? && Accepts(s, PcOf(s, t).op, PcOf(s, t).token)
    case Refused(t) => PcOf(s, t).HasRead?
    case Publish(t) => PcOf(s, t).Answered?
    case ReleaseFile(t) => PcOf(s, t).Done?
    case ReleaseMutex(t) => PcOf(s, t).FileReleased?
    case StatusLoad(t) => PcOf(s, t).Idle?
    case StatusSkip(t) => PcOf(s, t).Loaded?
    case StatusSave(t) => PcOf(s, t).Loaded?
    case Crash(_) => true
  }

  function Go(s: State, t: Thread, pc: Pc): State {
    s.(pcs := s.pcs[t := pc])
  }

  /** The server answers with a fresh token, or with none to a deactivation. */
  function Rotate(s: State, op: Operation): State {
    if op.Deactivate? then s.(issued := NoToken)
    else s.(issued := Token(s.count), count := s.count + 1)
  }

  /** A refused or unanswered operation writes back what it has read; a deactivation always empties the file. */
  function KeepToken(s: State, t: Thread, op: Operation, token: Token): State {
    Go(s.(stored := if op.Deactivate? then NoToken else if op.Activate? then s.stored else token), t, Done)
  }

  /** The system frees what a dead process held. */
  function Bury(s: State, process: int): State {
    s.(mutexes := s.mutexes - {process},
       file := if s.file.HeldBy? && s.file.thread.process == process then Free else s.file,
       pcs := map t | t in s.pcs && t.process != process :: s.pcs[t],
       lost := s.lost || exists t :: t in s.pcs && t.process == process && s.pcs[t].Answered?)
  }

  function Next(s: State, e: Event): State
    requires Enabled(s, e)
  {
    match e
    case TakeMutex(t, op) => Go(s.(mutexes := s.mutexes[t.process := t]), t, WaitingForFile(op))
    case TakeFile(t) => Go(s.(file := HeldBy(t)), t, Entered(PcOf(s, t).op))
    case FileTimesOut(t) => Go(s.(mutexes := s.mutexes - {t.process}), t, Idle)
    case Load(t) => Go(s, t, HasRead(PcOf(s, t).op, s.stored))
    case Accepted(t) => var r := Rotate(s, PcOf(s, t).op); Go(r, t, Answered(r.issued))
    case AnswerLost(t) =>
      KeepToken(Rotate(s, PcOf(s, t).op), t, PcOf(s, t).op, PcOf(s, t).token).(lost := s.lost || !PcOf(s, t).op.Deactivate?)
    case Refused(t) =>
      KeepToken(s, t, PcOf(s, t).op, PcOf(s, t).token).(lost := s.lost || (PcOf(s, t).op.Deactivate? && s.issued.Token?))
    case Publish(t) => Go(s.(stored := PcOf(s, t).token), t, Done)
    case ReleaseFile(t) => Go(s.(file := Free), t, FileReleased)
    case ReleaseMutex(t) => Go(s.(mutexes := s.mutexes - {t.process}), t, Idle)
    case StatusLoad(t) => Go(s, t, Loaded(s.stored))
    case StatusSkip(t) => Go(s, t, Idle)
    case StatusSave(t) => Go(s.(stored := PcOf(s, t).token), t, Idle)
    case Crash(process) => Bury(s, process)
  }

  ghost predicate IsRun(states: seq<State>, events: seq<Event>) {
    && |states| == |events| + 1 && Init(states[0])
    && forall i :: 0 <= i < |events| ==> Enabled(states[i], events[i]) && states[i + 1] == Next(states[i], events[i])
  }

  /******* Mutual exclusion *******/

  /** Between taking the lock file and releasing it. */
  predicate InSection(pc: Pc) {
    pc.Entered? || pc.HasRead? || pc.Answered? || pc.Done?
  }

  predicate HoldsMutex(pc: Pc) {
    InSection(pc) || pc.WaitingForFile? || pc.FileReleased?
  }

  ghost predicate LockOk(s: State, t: Thread) {
    && (InSection(PcOf(s, t)) ==> s.file == HeldBy(t))
    && (HoldsMutex(PcOf(s, t)) ==> t.process in s.mutexes && s.mutexes[t.process] == t)
  }

  ghost predicate LocksOk(s: State) {
    (forall t :: LockOk(s, t)) && (s.file.HeldBy? ==> InSection(PcOf(s, s.file.thread)))
  }

  lemma LocksAfterCrash(s: State, process: int)
    requires LocksOk(s)
    ensures LocksOk(Bury(s, process))
  {
    var s' := Bury(s, process);
    assert forall t :: PcOf(s', t) == if t.process == process then Idle else PcOf(s, t);
    forall t ensures LockOk(s', t) { assert LockOk(s, t); }
  }

  lemma LocksStep(s: State, e: Event)
    requires LocksOk(s) && Enabled(s, e)
    ensures LocksOk(Next(s, e))
  {
    if e.Crash? {
      LocksAfterCrash(s, e.process);
    } else {
      forall t ensures LockOk(Next(s, e), t) {
        LockStep(s, e, t);
      }
      HolderStep(s, e);
      hide Next, Enabled, LockOk;
    }
  }

  lemma LockStep(s: State, e: Event, t: Thread)
    requires LocksOk(s) && Enabled(s, e) && !e.Crash?
    ensures LockOk(Next(s, e), t)
  {
    assert LockOk(s, t) && LockOk(s, e.t);
    if t != e.t { assert PcOf(Next(s, e), t) == PcOf(s, t); }
  }

  lemma HolderStep(s: State, e: Event)
    requires LocksOk(s) && Enabled(s, e) && !e.Crash?
    ensures var s' := Next(s, e); s'.file.HeldBy? ==> InSection(PcOf(s', s'.file.thread))
  {
    var s' := Next(s, e);
    assert LockOk(s, e.t);
    if s'.file.HeldBy? && s'.file.thread != e.t { assert PcOf(s', s'.file.thread) == PcOf(s, s'.file.thread); }
  }

  lemma {:induction false} RunLocks(states: seq<State>, events: seq<Event>, i: nat)
    requires IsRun(states, events) && i < |states|
    ensures LocksOk(states[i])
  {
    if i > 0 {
      RunLocks(states, events, i - 1);
      LocksStep(states[i - 1], events[i - 1]);
    }
  }

  /** For any number of threads and processes, crashes and timeouts included, two sections never overlap. */
  lemma SectionsNeverOverlap(states: seq<State>, events: seq<Event>, i: nat, t: Thread, u: Thread)
    requires IsRun(states, events) && i < |states|
    requires InSection(PcOf(states[i], t)) && InSection(PcOf(states[i], u))
    ensures t == u
  {
    RunLocks(states, events, i);
    assert LockOk(states[i], t) && LockOk(states[i], u);
  }

  /** At most one thread of a process waits for the lock file. */
  lemma OneContenderPerProcess(states: seq<State>, events: seq<Event>, i: nat, t: Thread, u: Thread)
    requires IsRun(states, events) && i < |states|
    requires HoldsMutex(PcOf(states[i], t)) && HoldsMutex(PcOf(states[i], u)) && t.process == u.process
    ensures t == u
  {
    RunLocks(states, events, i);
    assert LockOk(states[i], t) && LockOk(states[i], u);
  }

  /******* The stored token *******/

  ghost predicate AboutToPublish(s: State) {
    s.file.HeldBy? && PcOf(s, s.file.thread).Answered?
  }

  /** An unlocked status write-back writes the token that is stored, or one that is about to be overwritten anyway. */
  ghost predicate SaveOk(s: State, e: Event)
    requires Enabled(s, e)
  {
    e.StatusSave? ==> PcOf(s, e.t).token == s.stored || AboutToPublish(s)
  }

  ghost predicate PcOk(s: State, pc: Pc) {
    && (pc.Answered? ==> pc.token == s.issued)
    && (pc.HasRead? ==> pc.token == s.stored)
  }

  /** The file has the last token issued, unless the one thread that was answered is about to publish it. */
  ghost predicate TokenOk(s: State) {
    && (s.issued.Token? ==> s.issued.number < s.count)
    && (!AboutToPublish(s) ==> s.stored == s.issued)
    && forall t :: PcOk(s, PcOf(s, t))
  }

  lemma TokenAfterCrash(s: State, process: int)
    requires LocksOk(s) && TokenOk(s) && !Bury(s, process).lost
    ensures TokenOk(Bury(s, process))
  {
    var s' := Bury(s, process);
    assert forall t :: PcOf(s', t) == if t.process == process then Idle else PcOf(s, t);
    assert PcOk(s, Idle);
  }

  lemma TokenStep(s: State, e: Event)
    requires LocksOk(s) && TokenOk(s) && Enabled(s, e) && SaveOk(s, e) && !Next(s, e).lost
    ensures TokenOk(Next(s, e))
  {
    if e.Crash? {
      TokenAfterCrash(s, e.process);
    } else {
      var s' := Next(s, e);
      assert PcOk(s, PcOf(s, e.t)) && LockOk(s, e.t);
      forall t ensures PcOk(s', PcOf(s', t)) {
        if t != e.t { assert PcOf(s', t) == PcOf(s, t) && PcOk(s, PcOf(s, t)) && LockOk(s, t); }
      }
    }
  }

  /** A write-back that finds another token stored, with nobody about to publish, always breaks the agreement. */
  lemma BadSaveBreaks(s: State, e: Event)
    requires LocksOk(s) && TokenOk(s) && Enabled(s, e) && !SaveOk(s, e)
    ensures !TokenOk(Next(s, e)) && Next(s, e).stored != Next(s, e).issued
  {
    assert LockOk(s, e.t);
    assert s.file.HeldBy? ==> PcOf(Next(s, e), s.file.thread) == PcOf(s, s.file.thread);
  }

  lemma LostStays(s: State, e: Event)
    requires Enabled(s, e) && s.lost
    ensures Next(s, e).lost
  {
  }

  ghost predicate SavesOk(states: seq<State>, events: seq<Event>, i: nat)
    requires IsRun(states, events) && i < |states|
  {
    forall j :: 0 <= j < i ==> SaveOk(states[j], events[j])
  }

  lemma {:induction false} RunToken(states: seq<State>, events: seq<Event>, i: nat)
    requires IsRun(states, events) && i < |states| && !states[i].lost && SavesOk(states, events, i)
    ensures TokenOk(states[i])
  {
    if i > 0 {
      if states[i - 1].lost { LostStays(states[i - 1], events[i - 1]); }
      RunToken(states, events, i - 1);
      RunLocks(states, events, i - 1);
      TokenStep(states[i - 1], events[i - 1]);
    }
  }

  /**
    While every answer is delivered, the stored and the issued token agree all along a run if and only if every
    status write-back outside the lock is one that writes the token it finds stored, or comes just before a publish.
  */
  lemma {:induction false} TokensAgreeIff(states: seq<State>, events: seq<Event>, i: nat)
    requires IsRun(states, events) && i < |states| && !states[i].lost
    ensures (forall k :: 0 <= k <= i ==> TokenOk(states[k])) <==> SavesOk(states, events, i)
  {
    if i == 0 {
      RunToken(states, events, 0);
    } else {
      if states[i - 1].lost { LostStays(states[i - 1], events[i - 1]); }
      TokensAgreeIff(states, events, i - 1);
      RunLocks(states, events, i - 1);
      if SavesOk(states, events, i) {
        RunToken(states, events, i);
      } else if TokenOk(states[i - 1]) && !SaveOk(states[i - 1], events[i - 1]) {
        BadSaveBreaks(states[i - 1], events[i - 1]);
      }
    }
  }

  /** If every answer is delivered and no status read writes back an old token, the stored token is the last one issued. */
  lemma StoredTokenIsLastIssued(states: seq<State>, events: seq<Event>, i: nat)
    requires IsRun(states, events) && i < |states| && !states[i].lost && SavesOk(states, events, i)
    requires forall t :: !PcOf(states[i], t).Answered?
    ensures states[i].stored == states[i].issued
  {
    RunToken(states, events, i);
    assert !AboutToPublish(states[i]);
  }

  /** ...so the next check-in reads a token that the server accepts. */
  lemma CheckInIsAccepted(states: seq<State>, events: seq<Event>, i: nat, t: Thread)
    requires IsRun(states, events) && i < |states| && !states[i].lost && SavesOk(states, events, i)
    requires PcOf(states[i], t).HasRead? && PcOf(states[i], t).token.Token?
    ensures Enabled(states[i], Accepted(t))
  {
    RunToken(states, events, i);
    RunLocks(states, events, i);
    assert PcOk(states[i], PcOf(states[i], t)) && LockOk(states[i], t);
  }

  ghost predicate Reaches(s0: State, events: seq<Event>, s: State)
    decreases |events|
  {
    if events == [] then s == s0
    else Enabled(s0, events[0]) && Reaches(Next(s0, events[0]), events[1..], s)
  }

  lemma {:induction false} ReachesAsRun(s0: State, events: seq<Event>, s: State) returns (states: seq<State>)
    requires Reaches(s0, events, s)
    ensures |states| == |events| + 1 && states[0] == s0 && states[|events|] == s
    ensures forall i :: 0 <= i < |events| ==> Enabled(states[i], events[i]) && states[i + 1] == Next(states[i], events[i])
    decreases |events|
  {
    if events == [] {
      states := [s0];
    } else {
      var rest := ReachesAsRun(Next(s0, events[0]), events[1..], s);
      states := [s0] + rest;
      forall i | 0 <= i < |events|
        ensures Enabled(states[i], events[i]) && states[i + 1] == Next(states[i], events[i])
      {
        if i > 0 { assert events[i] == events[1..][i - 1] && states[i] == rest[i - 1] && states[i + 1] == rest[i]; }
      }
    }
  }

  lemma {:induction false} ReachesThen(s0: State, events: seq<Event>, s: State, e: Event)
    requires Reaches(s0, events, s) && Enabled(s, e)
    ensures Reaches(s0, events + [e], Next(s, e))
    decreases |events|
  {
    if events == [] {
      assert events + [e] == [e];
    } else {
      ReachesThen(Next(s0, events[0]), events[1..], s, e);
      assert (events + [e])[1..] == events[1..] + [e];
    }
  }

  /** A check-in by u up to the server's answer. */
  lemma CheckInIsAnswered(s: State, u: Thread) returns (events: seq<Event>, s': State)
    requires PcOf(s, u).Idle? && u.process !in s.mutexes && s.file.Free? && s.stored.Token? && s.issued == s.stored
    ensures Reaches(s, events, s')
    ensures s' == s.(mutexes := s.mutexes[u.process := u], file := HeldBy(u), pcs := s.pcs[u := Answered(Token(s.count))],
                     issued := Token(s.count), count := s.count + 1)
  {
    assert Reaches(s, [], s);
    hide Reaches;
    ReachesThen(s, [], s, TakeMutex(u, CheckIn));
    var s1 := Go(s.(mutexes := s.mutexes[u.process := u]), u, WaitingForFile(CheckIn));
    events := [] + [TakeMutex(u, CheckIn)];
    ReachesThen(s, events, s1, TakeFile(u));
    var s2 := Go(s1.(file := HeldBy(u)), u, Entered(CheckIn));
    events := events + [TakeFile(u)];
    ReachesThen(s, events, s2, Load(u));
    var s3 := Go(s2, u, HasRead(CheckIn, s.stored));
    events := events + [Load(u)];
    ReachesThen(s, events, s3, Accepted(u));
    s' := Go(s3.(issued := Token(s.count), count := s.count + 1), u, Answered(Token(s.count)));
    events := events + [Accepted(u)];
  }

  /** ...and a whole one, from mutex to mutex. */
  lemma CheckInRotates(s: State, u: Thread) returns (events: seq<Event>, s': State)
    requires PcOf(s, u).Idle? && u.process !in s.mutexes && s.file.Free? && s.stored.Token? && s.issued == s.stored
    ensures Reaches(s, events, s')
    ensures s' == s.(pcs := s.pcs[u := Idle], stored := Token(s.count), issued := Token(s.count), count := s.count + 1)
  {
    hide Reaches;
    var s4;
    events, s4 := CheckInIsAnswered(s, u);
    ReachesThen(s, events, s4, Publish(u));
    var s5 := Go(s4.(stored := Token(s.count)), u, Done);
    events := events + [Publish(u)];
    ReachesThen(s, events, s5, ReleaseFile(u));
    var s6 := Go(s5.(file := Free), u, FileReleased);
    events := events + [ReleaseFile(u)];
    ReachesThen(s, events, s6, ReleaseMutex(u));
    s' := Go(s6.(mutexes := s.mutexes), u, Idle);
    assert s6.mutexes - {u.process} == s.mutexes;
    events := events + [ReleaseMutex(u)];
  }

  /** With an overlap the new token is overwritten: a status read loads, a check-in rotates, and the read saves. */
  lemma OverlapLosesTheToken(s0: State, t: Thread, u: Thread) returns (states: seq<State>, events: seq<Event>)
    requires Init(s0) && t != u && s0.stored.Token?
    ensures IsRun(states, events) && states[0] == s0
    ensures var s := states[|events|];
      && !s.lost && s.file.Free? && s.mutexes == map[] && (forall v :: PcOf(s, v).Idle?)
      && s.stored == s0.stored && s.issued == Token(s0.count) && s.stored != s.issued
  {
    var s1 := Next(s0, StatusLoad(t));
    var checkIn, s2 := CheckInRotates(s1, u);
    ReachesThen(s1, checkIn, s2, StatusSave(t));
    events := [StatusLoad(t)] + (checkIn + [StatusSave(t)]);
    states := ReachesAsRun(s0, events, Next(s2, StatusSave(t)));
  }
}
