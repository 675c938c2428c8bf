/**
  Cached permission answers under versioned keys.

  An answer is cached for 300 s under a key that embeds a user version and a global version. An
  invalidation increments a version, which is itself a cache entry of 86400 s, so a version that is
  left alone for a day lapses to 0 and later counts through the same values again. Requests
  interleave with each other, with changes of the database and with invalidations at every access
  to the cache or the database.
*/
module PermissionCache {

  import opened Intervals

  type User = int
  type Role = int
  type RequestId = int

  /** A normalised path together with an HTTP method. */
  type Route = int

  datatype Db = Db(members: set<(User, Role)>, grants: set<(Role, Route)>)

  const PERMISSION_CACHE := 300
  const VERSION_EXPIRE_TIME := 86400

  /** The active roles of a user. */
  function RolesOf(db: Db, user: User): set<Role> {
    set m | m in db.members && m.0 == user :: m.1
  }

  predicate Granted(roles: set<Role>, route: Route, db: Db) {
    exists role | role in roles :: (role, route) in db.grants
  }

  /******* Version counters *******/

  /** One invalidation: when, and which database state (by index) it announced. */
  datatype Bump = Bump(at: Instant, db: nat)

  /** One lapse: when, and after how many invalidations. */
  datatype Lapse = Lapse(at: Instant, base: nat)

  /** The cached value and expiry (value 0: no entry), with the counter's history. */
  datatype Counter = Counter(value: nat, expiry: Instant, bumps: seq<Bump>, lapses: seq<Lapse>)

  const FRESH := Counter(0, 0, [], [])

  function Increment(c: Counter, now: Instant, db: nat): Counter {
    Counter(c.value + 1, now + VERSION_EXPIRE_TIME, c.bumps + [Bump(now, db)], c.lapses)
  }

  /** Time passes up to `now`: a read at or after the expiry misses. */
  function Expire(c: Counter, now: Instant): Counter {
    if c.value > 0 && c.expiry <= now then c.(value := 0, lapses := c.lapses + [Lapse(c.expiry, |c.bumps|)]) else c
  }

  /** What a request has read, when, and how far the counter's history was. */
  datatype Tag = Tag(value: nat, at: Instant, bumps: nat, lapses: nat)

  function Read(c: Counter, now: Instant): Tag {
    Tag(c.value, now, |c.bumps|, |c.lapses|)
  }

  /******* State *******/

  datatype Tags = Tags(user: Tag, global: Tag)

  datatype Key = Key(user: User, userVersion: nat, globalVersion: nat, route: Route)

  /** An answer with its origin: the database states (by index) that were read, from when on, under which versions. */
  datatype Origin = Origin(seen: nat, seenGrants: nat, asOf: Instant, tags: Tags)

  datatype Answer = Answer(value: bool, expiry: Instant, origin: Origin)

  datatype Phase =
    | BothRead
    | Missed
    | RolesRead(roles: set<Role>, seen: nat, asOf: Instant)
    | Queried(value: bool, origin: Origin)
    | Returned(at: Instant, answer: bool, source: Origin)

  datatype Request =
    | UserRead(user: User, route: Route, userTag: Tag)
    | Active(user: User, route: Route, tags: Tags, phase: Phase)

  datatype State = State(
    now: Instant,
    users: map<User, Counter>,
    global: Counter,
    answers: map<Key, Answer>,
    dbs: seq<Db>,
    requests: map<RequestId, Request>)

  function UserCounter(s: State, u: User): Counter {
    if u in s.users then s.users[u] else FRESH
  }

  predicate Init(s: State) {
    s.users == map[] && s.global == FRESH && s.answers == map[] && |s.dbs| == 1 && s.requests == map[]
  }

  datatype Event =
    | Tick(seconds: nat)
    | ChangeDb(db: Db)
    | InvalidateUser(user: User)
    | InvalidateAll
    | Begin(r: RequestId, user: User, route: Route)
    | ReadGlobal(r: RequestId)
    | Proceed(r: RequestId)

  function KeyOf(q: Request): Key
    requires q.Active?
  {
    Key(q.user, q.tags.user.value, q.tags.global.value, q.route)
  }

  function Started(q: Request): Instant {
    if q.UserRead? then q.userTag.at else q.tags.user.at
  }

  /** A request takes at most `d` seconds from its first read on. */
  predicate Enabled(s: State, e: Event, d: nat) {
    match e
    case Begin(r, _, _) => r !in s.requests
    case ReadGlobal(r) => r in s.requests && s.requests[r].UserRead? && s.now <= Started(s.requests[r]) + d
    case Proceed(r) =>
      && r in s.requests && s.requests[r].Active? && !s.requests[r].phase.Returned?
      && s.now <= Started(s.requests[r]) + d
    case _ => true
  }

  /** The next phase of a request that has read both versions. */
  function NextPhase(s: State, q: Request): Phase
    requires q.Active? && s.dbs != []
  {
    var last := |s.dbs| - 1;
    match q.phase
    case BothRead =>
      var key := KeyOf(q);
      if key in s.answers && s.now < s.answers[key].expiry then
        Returned(s.now, s.answers[key].value, s.answers[key].origin)
      else Missed
    case Missed =>
      var roles := RolesOf(s.dbs[last], q.user);
      if roles == {} then Returned(s.now, false, Origin(last, last, s.now, q.tags)) else RolesRead(roles, last, s.now)
    case RolesRead(roles, seen, asOf) =>
      Queried(Granted(roles, q.route, s.dbs[last]), Origin(seen, last, asOf, q.tags))
    case Queried(value, origin) => Returned(s.now, value, origin)
    case Returned(_, _, _) => q.phase
  }

  /** Only the last step of a request that had to query the database writes the cache. */
  function NextAnswers(s: State, q: Request): map<Key, Answer>
    requires q.Active?
  {
    if q.phase.Queried? then
      s.answers[KeyOf(q) := Answer(q.phase.value, s.now + PERMISSION_CACHE, q.phase.origin)]
    else s.answers
  }

  function StepProceed(s: State, r: RequestId, q: Request): State
    requires q.Active? && s.dbs != []
  {
    s.(answers := NextAnswers(s, q), requests := s.requests[r := q.(phase := NextPhase(s, q))])
  }

  function StepTick(s: State, now: Instant): State {
    s.(now := now, users := map u | u in s.users :: Expire(s.users[u], now), global := Expire(s.global, now))
  }

  function StepInvalidateUser(s: State, u: User): State
    requires s.dbs != []
  {
    s.(users := s.users[u := Increment(UserCounter(s, u), s.now, |s.dbs| - 1)])
  }

  function StepInvalidateAll(s: State): State
    requires s.dbs != []
  {
    s.(global := Increment(s.global, s.now, |s.dbs| - 1))
  }

  function StepBegin(s: State, r: RequestId, u: User, route: Route): State {
    s.(requests := s.requests[r := UserRead(u, route, Read(UserCounter(s, u), s.now))])
  }

  function StepReadGlobal(s: State, r: RequestId, q: Request): State
    requires q.UserRead?
  {
    s.(requests := s.requests[r := Active(q.user, q.route, Tags(q.userTag, Read(s.global, s.now)), BothRead)])
  }

  function Next(s: State, e: Event, d: nat): State
    requires Enabled(s, e, d) && s.dbs != []
  {
    match e
    case Tick(seconds) => StepTick(s, s.now + seconds)
    case ChangeDb(db) => s.(dbs := s.dbs + [db])
    case InvalidateUser(u) => StepInvalidateUser(s, u)
    case InvalidateAll => StepInvalidateAll(s)
    case Begin(r, u, route) => StepBegin(s, r, u, route)
    case ReadGlobal(r) => StepReadGlobal(s, r, s.requests[r])
    case Proceed(r) => StepProceed(s, r, s.requests[r])
  }

  ghost predicate Step(s: State, e: Event, s': State, d: nat) {
    s.dbs != [] && Enabled(s, e, d) && s' == Next(s, e, d)
  }

  ghost predicate IsRun(states: seq<State>, events: seq<Event>, d: nat) {
    && |states| == |events| + 1 && Init(states[0])
    && forall i :: 0 <= i < |events| ==> Step(states[i], events[i], states[i + 1], d)
  }

  /******* Invariants of one counter *******/

  function Base(c: Counter, lapses: nat): nat
    requires lapses <= |c.lapses|
  {
    if lapses == 0 then 0 else c.lapses[lapses - 1].base
  }

  /** The counter's value counts the invalidations since the last lapse; a lapse comes a day after an invalidation. */
  ghost predicate CounterOk(c: Counter, now: Instant, db: nat) {
    && (forall k :: 0 <= k < |c.bumps| ==> c.bumps[k].at <= now && c.bumps[k].db <= db)
    && (forall k :: 0 <= k < |c.lapses| ==>
          && 0 < c.lapses[k].base <= |c.bumps| && c.lapses[k].at <= now
          && c.lapses[k].at == c.bumps[c.lapses[k].base - 1].at + VERSION_EXPIRE_TIME)
    && (forall j, k :: 0 <= j < k < |c.lapses| ==> c.lapses[j].base < c.lapses[k].base)
    && Base(c, |c.lapses|) + c.value == |c.bumps|
    && (c.value > 0 ==> now < c.expiry == c.bumps[|c.bumps| - 1].at + VERSION_EXPIRE_TIME)
  }

  /** The tag fits the counter's history: it was taken after `lapses` lapses and `bumps` invalidations. */
  ghost predicate TagOk(c: Counter, tag: Tag, now: Instant) {
    && tag.at <= now && tag.bumps <= |c.bumps| && tag.lapses <= |c.lapses|
    && Base(c, tag.lapses) + tag.value == tag.bumps
    && (forall k :: tag.bumps <= k < |c.bumps| ==> tag.at <= c.bumps[k].at)
    && (forall k :: 0 <= k < tag.lapses ==> c.lapses[k].at <= tag.at)
    && (forall k :: tag.lapses <= k < |c.lapses| ==> tag.at < c.lapses[k].at && tag.bumps <= c.lapses[k].base)
  }

  /** A database state read when `seen` was current includes what the tag's invalidations announced. */
  ghost predicate Reflects(c: Counter, tag: Tag, seen: nat)
    requires tag.bumps <= |c.bumps|
  {
    forall k :: 0 <= k < tag.bumps ==> c.bumps[k].db <= seen
  }

  /** Later states of a counter. */
  ghost predicate Extends(c: Counter, c': Counter, now: Instant) {
    && c.bumps <= c'.bumps && c.lapses <= c'.lapses
    && (forall k :: |c.bumps| <= k < |c'.bumps| ==> now <= c'.bumps[k].at)
    && forall k :: |c.lapses| <= k < |c'.lapses| ==> now < c'.lapses[k].at && |c.bumps| <= c'.lapses[k].base
  }

  lemma TagKept(c: Counter, c': Counter, tag: Tag, now: Instant, now': Instant, seen: nat)
    requires TagOk(c, tag, now) && Extends(c, c', now) && now <= now'
    ensures TagOk(c', tag, now')
    ensures Reflects(c, tag, seen) ==> Reflects(c', tag, seen)
  {
    assert Base(c', tag.lapses) == Base(c, tag.lapses);
  }

  lemma IncrementOk(c: Counter, now: Instant, db: nat)
    requires CounterOk(c, now, db)
    ensures CounterOk(Increment(c, now, db), now, db) && Extends(c, Increment(c, now, db), now)
  {
  }

  lemma ExpireOk(c: Counter, now: Instant, now': Instant, db: nat)
    requires CounterOk(c, now, db) && now <= now'
    ensures CounterOk(Expire(c, now'), now', db) && Extends(c, Expire(c, now'), now)
  {
    if Expire(c, now') != c {
      LapseOk(c, now, now', db);
    }
  }

  lemma LapseOk(c: Counter, now: Instant, now': Instant, db: nat)
    requires CounterOk(c, now, db) && c.value > 0 && c.expiry <= now' && now <= now'
    ensures CounterOk(c.(value := 0, lapses := c.lapses + [Lapse(c.expiry, |c.bumps|)]), now', db)
  {
    var c', n := c.(value := 0, lapses := c.lapses + [Lapse(c.expiry, |c.bumps|)]), |c.lapses|;
    forall k | 0 <= k < n ensures c'.lapses[k] == c.lapses[k] && c.lapses[k].base < |c.bumps| {
      assert c.lapses[k].base <= Base(c, n);
    }
    assert c'.lapses[n] == Lapse(c.expiry, |c.bumps|) && Base(c', n + 1) == |c.bumps|;
  }

  lemma ReadOk(c: Counter, now: Instant, db: nat)
    requires CounterOk(c, now, db)
    ensures TagOk(c, Read(c, now), now)
    ensures Reflects(c, Read(c, now), db)
  {
  }

  /** No lapse of this counter lies after `from` and up to `to`. */
  ghost predicate NoLapse(c: Counter, from: Instant, to: Instant) {
    forall k :: 0 <= k < |c.lapses| ==> !(from < c.lapses[k].at <= to)
  }

  lemma NoLapseBetween(c: Counter, now: Instant, earlier: Tag, later: Tag)
    requires TagOk(c, earlier, now) && TagOk(c, later, now) && NoLapse(c, earlier.at, later.at)
    ensures later.lapses <= earlier.lapses
  {
    if |c.lapses| > earlier.lapses {
      var lapse := c.lapses[earlier.lapses];
      assert earlier.at < lapse.at && (earlier.lapses < later.lapses ==> lapse.at <= later.at);
    }
  }

  /** More lapses mean more invalidations for the same value. */
  lemma LapsesTellApart(c: Counter, now: Instant, db: nat, fewer: Tag, more: Tag)
    requires CounterOk(c, now, db) && TagOk(c, fewer, now) && TagOk(c, more, now)
    requires fewer.value == more.value && fewer.lapses < more.lapses
    ensures fewer.bumps < more.bumps
  {
    assert fewer.lapses > 0 ==> c.lapses[fewer.lapses - 1].base < c.lapses[more.lapses - 1].base;
  }

  /** Of two tags with one version value, the writer's counts all the reader's does if and only if no lapse lies between. */
  lemma SameVersionCountsAll(c: Counter, now: Instant, db: nat, writer: Tag, reader: Tag)
    requires CounterOk(c, now, db) && TagOk(c, writer, now) && TagOk(c, reader, now) && writer.value == reader.value
    ensures reader.bumps <= writer.bumps <==> NoLapse(c, writer.at, reader.at)
  {
    if NoLapse(c, writer.at, reader.at) {
      NoLapseBetween(c, now, writer, reader);
      if reader.lapses < writer.lapses {
        LapsesTellApart(c, now, db, reader, writer);
      }
    } else {
      var k :| 0 <= k < |c.lapses| && writer.at < c.lapses[k].at <= reader.at;
      assert writer.lapses <= k < reader.lapses;
      LapsesTellApart(c, now, db, writer, reader);
    }
  }

  /******* The invariant *******/

  ghost predicate TagsOk(s: State, user: User, tags: Tags) {
    && TagOk(UserCounter(s, user), tags.user, s.now) && TagOk(s.global, tags.global, s.now)
    && tags.user.at <= tags.global.at
  }

  /** The value is what two reads of the database gave, both made after the versions were read. */
  ghost predicate Justified(s: State, user: User, route: Route, value: bool, o: Origin) {
    && TagsOk(s, user, o.tags)
    && o.seen <= o.seenGrants < |s.dbs| && o.tags.global.at <= o.asOf <= s.now
    && value == Granted(RolesOf(s.dbs[o.seen], user), route, s.dbs[o.seenGrants])
    && Reflects(UserCounter(s, user), o.tags.user, o.seen) && Reflects(s.global, o.tags.global, o.seen)
  }

  ghost predicate AnswerOk(s: State, key: Key, a: Answer, d: nat) {
    && Justified(s, key.user, key.route, a.value, a.origin)
    && key.userVersion == a.origin.tags.user.value && key.globalVersion == a.origin.tags.global.value
    && a.expiry <= a.origin.tags.user.at + d + PERMISSION_CACHE
  }

  ghost predicate PhaseOk(s: State, user: User, route: Route, tags: Tags, phase: Phase, d: nat)
    requires TagsOk(s, user, tags)
  {
    match phase
    case RolesRead(roles, seen, asOf) =>
      && seen < |s.dbs| && roles == RolesOf(s.dbs[seen], user) && tags.global.at <= asOf <= s.now
      && Reflects(UserCounter(s, user), tags.user, seen) && Reflects(s.global, tags.global, seen)
    case Queried(value, origin) => origin.tags == tags && Justified(s, user, route, value, origin)
    case Returned(at, answer, source) =>
      && Justified(s, user, route, answer, source)
      && source.tags.user.value == tags.user.value && source.tags.global.value == tags.global.value
      && source.asOf <= s.now && at <= source.asOf + d + PERMISSION_CACHE
    case _ => true
  }

  ghost predicate RequestOk(s: State, q: Request, d: nat) {
    match q
    case UserRead(user, _, tag) => TagOk(UserCounter(s, user), tag, s.now)
    case Active(user, route, tags, phase) => TagsOk(s, user, tags) && PhaseOk(s, user, route, tags, phase, d)
  }

  ghost predicate CountersOk(s: State) {
    && s.dbs != [] && CounterOk(s.global, s.now, |s.dbs| - 1)
    && forall u :: CounterOk(UserCounter(s, u), s.now, |s.dbs| - 1)
  }

  ghost predicate AnswersOk(s: State, d: nat) {
    forall key :: key in s.answers ==> AnswerOk(s, key, s.answers[key], d)
  }

  ghost predicate RequestsOk(s: State, d: nat) {
    forall r :: r in s.requests ==> RequestOk(s, s.requests[r], d)
  }

  ghost predicate Inv(s: State, d: nat) {
    CountersOk(s) && AnswersOk(s, d) && RequestsOk(s, d)
  }

  /** Later states, as far as answers and requests depend on them. */
  ghost predicate Later(s: State, s': State) {
    && s.now <= s'.now && s.dbs <= s'.dbs && Extends(s.global, s'.global, s.now)
    && forall u :: Extends(UserCounter(s, u), UserCounter(s', u), s.now)
  }

  lemma TagsKept(s: State, s': State, user: User, tags: Tags, seen: nat)
    requires Later(s, s') && TagsOk(s, user, tags)
    ensures TagsOk(s', user, tags)
    ensures Reflects(UserCounter(s, user), tags.user, seen) ==> Reflects(UserCounter(s', user), tags.user, seen)
    ensures Reflects(s.global, tags.global, seen) ==> Reflects(s'.global, tags.global, seen)
  {
    TagKept(UserCounter(s, user), UserCounter(s', user), tags.user, s.now, s'.now, seen);
    TagKept(s.global, s'.global, tags.global, s.now, s'.now, seen);
  }

  lemma JustifiedKept(s: State, s': State, user: User, route: Route, value: bool, o: Origin)
    requires Later(s, s') && Justified(s, user, route, value, o)
    ensures Justified(s', user, route, value, o)
  {
    TagsKept(s, s', user, o.tags, o.seen);
  }

  lemma RequestKept(s: State, s': State, q: Request, d: nat)
    requires Later(s, s') && RequestOk(s, q, d)
    ensures RequestOk(s', q, d)
  {
    match q
    case UserRead(user, _, tag) => TagKept(UserCounter(s, user), UserCounter(s', user), tag, s.now, s'.now, 0);
    case Active(user, route, tags, phase) =>
      TagsKept(s, s', user, tags, if phase.RolesRead? then phase.seen else 0);
      match phase
      case Queried(value, origin) => JustifiedKept(s, s', user, route, value, origin);
      case Returned(_, answer, source) => JustifiedKept(s, s', user, route, answer, source);
      case _ =>
  }

  lemma AllKept(s: State, s': State, d: nat)
    requires Later(s, s') && Inv(s, d) && s'.answers == s.answers
    ensures AnswersOk(s', d)
    ensures forall r :: r in s.requests ==> RequestOk(s', s.requests[r], d)
  {
    forall key | key in s.answers ensures AnswerOk(s', key, s.answers[key], d) {
      JustifiedKept(s, s', key.user, key.route, s.answers[key].value, s.answers[key].origin);
    }
    forall r | r in s.requests ensures RequestOk(s', s.requests[r], d) {
      RequestKept(s, s', s.requests[r], d);
    }
  }

  lemma ExtendsSelf(c: Counter, now: Instant)
    ensures Extends(c, c, now)
  {
  }

  lemma TickUser(s: State, now: Instant, u: User)
    requires CountersOk(s) && s.now <= now
    ensures CounterOk(UserCounter(StepTick(s, now), u), now, |s.dbs| - 1)
    ensures Extends(UserCounter(s, u), UserCounter(StepTick(s, now), u), s.now)
  {
    hide CounterOk, Extends;
    assert UserCounter(StepTick(s, now), u) == Expire(UserCounter(s, u), now);
    ExpireOk(UserCounter(s, u), s.now, now, |s.dbs| - 1);
  }

  lemma TickStep(s: State, now: Instant, d: nat)
    requires Inv(s, d) && s.now <= now
    ensures Inv(StepTick(s, now), d)
  {
    hide CounterOk, Extends, RequestOk, AnswerOk, Expire;
    var s' := StepTick(s, now);
    ExpireOk(s.global, s.now, now, |s.dbs| - 1);
    forall u
      ensures CounterOk(UserCounter(s', u), now, |s.dbs| - 1)
      ensures Extends(UserCounter(s, u), UserCounter(s', u), s.now)
    {
      TickUser(s, now, u);
    }
    AllKept(s, s', d);
  }

  lemma InvalidateOneUser(s: State, u: User, v: User)
    requires CountersOk(s)
    ensures CounterOk(UserCounter(StepInvalidateUser(s, u), v), s.now, |s.dbs| - 1)
    ensures Extends(UserCounter(s, v), UserCounter(StepInvalidateUser(s, u), v), s.now)
  {
    hide CounterOk, Extends, Increment;
    ExtendsSelf(UserCounter(s, v), s.now);
    if v == u {
      assert UserCounter(StepInvalidateUser(s, u), v) == Increment(UserCounter(s, v), s.now, |s.dbs| - 1);
      IncrementOk(UserCounter(s, v), s.now, |s.dbs| - 1);
    } else {
      assert UserCounter(StepInvalidateUser(s, u), v) == UserCounter(s, v);
    }
  }

  lemma InvalidateUserStep(s: State, u: User, d: nat)
    requires Inv(s, d)
    ensures Inv(StepInvalidateUser(s, u), d)
  {
    var s' := StepInvalidateUser(s, u);
    forall v
      ensures CounterOk(UserCounter(s', v), s.now, |s.dbs| - 1)
      ensures Extends(UserCounter(s, v), UserCounter(s', v), s.now)
    {
      InvalidateOneUser(s, u, v);
    }
    AllKept(s, s', d);
  }

  lemma InvalidateAllStep(s: State, d: nat)
    requires Inv(s, d)
    ensures Inv(StepInvalidateAll(s), d)
  {
    var s' := StepInvalidateAll(s);
    IncrementOk(s.global, s.now, |s.dbs| - 1);
    SameUsers(s, s');
    AllKept(s, s', d);
  }

  lemma ChangeDbStep(s: State, db: Db, d: nat)
    requires Inv(s, d)
    ensures Inv(s.(dbs := s.dbs + [db]), d)
  {
    var s' := s.(dbs := s.dbs + [db]);
    SameUsers(s, s');
    AllKept(s, s', d);
  }

  lemma SameUsers(s: State, s': State)
    requires CountersOk(s) && s'.now == s.now && s'.users == s.users && |s.dbs| <= |s'.dbs|
    ensures forall u :: CounterOk(UserCounter(s', u), s'.now, |s'.dbs| - 1)
    ensures forall u :: Extends(UserCounter(s, u), UserCounter(s', u), s.now)
  {
    forall u
      ensures CounterOk(UserCounter(s', u), s'.now, |s'.dbs| - 1)
      ensures Extends(UserCounter(s, u), UserCounter(s', u), s.now)
    {
      assert UserCounter(s', u) == UserCounter(s, u);
    }
  }

  /** The counters and the answers stay: only requests change. */
  lemma SameCounters(s: State, s': State)
    requires CountersOk(s) && s'.now == s.now && s'.dbs == s.dbs && s'.users == s.users && s'.global == s.global
    ensures CountersOk(s') && Later(s, s')
  {
    SameUsers(s, s');
  }

  /** The current database state includes what any invalidation has announced. */
  lemma LastReflects(s: State, user: User, tags: Tags)
    requires CountersOk(s) && TagsOk(s, user, tags)
    ensures Reflects(UserCounter(s, user), tags.user, |s.dbs| - 1) && Reflects(s.global, tags.global, |s.dbs| - 1)
  {
    assert CounterOk(UserCounter(s, user), s.now, |s.dbs| - 1);
  }

  lemma PhaseStep(s: State, q: Request, d: nat)
    requires CountersOk(s) && AnswersOk(s, d) && q.Active? && RequestOk(s, q, d)
    requires s.now <= Started(q) + d
    ensures PhaseOk(s, q.user, q.route, q.tags, NextPhase(s, q), d)
  {
    hide CounterOk, Reflects;
    match q.phase
    case BothRead =>
      var key := KeyOf(q);
      assert key in s.answers ==> AnswerOk(s, key, s.answers[key], d);
    case Missed => LastReflects(s, q.user, q.tags);
    case _ =>
  }

  lemma StoredOk(s: State, q: Request, d: nat)
    requires q.Active? && q.phase.Queried? && RequestOk(s, q, d) && s.now <= Started(q) + d
    ensures AnswerOk(s, KeyOf(q), Answer(q.phase.value, s.now + PERMISSION_CACHE, q.phase.origin), d)
  {
  }

  lemma ProceedAnswers(s: State, s': State, q: Request, d: nat)
    requires Inv(s, d) && Later(s, s') && s.now == s'.now
    requires q.Active? && RequestOk(s, q, d) && s.now <= Started(q) + d && s'.answers == NextAnswers(s, q)
    ensures AnswersOk(s', d)
  {
    hide CountersOk, RequestsOk, Extends, Later, TagsOk, Reflects;
    forall key | key in s'.answers ensures AnswerOk(s', key, s'.answers[key], d) {
      var a := s'.answers[key];
      if q.phase.Queried? && key == KeyOf(q) {
        StoredOk(s, q, d);
      } else {
        assert a == s.answers[key];
      }
      assert AnswerOk(s, key, a, d);
      JustifiedKept(s, s', key.user, key.route, a.value, a.origin);
    }
  }

  lemma ProceedStep(s: State, r: RequestId, d: nat)
    requires Inv(s, d) && s.dbs != [] && Enabled(s, Proceed(r), d)
    ensures Inv(StepProceed(s, r, s.requests[r]), d)
  {
    hide CounterOk, Extends, AnswerOk, PhaseOk, Justified, NextPhase;
    var q, s' := s.requests[r], StepProceed(s, r, s.requests[r]);
    assert RequestOk(s, q, d);
    SameCounters(s, s');
    ProceedAnswers(s, s', q, d);
    PhaseStep(s, q, d);
    RequestKept(s, s', q.(phase := NextPhase(s, q)), d);
    forall r' | r' in s.requests ensures RequestOk(s', s.requests[r'], d) {
      RequestKept(s, s', s.requests[r'], d);
    }
  }

  lemma BeginStep(s: State, r: RequestId, user: User, route: Route, d: nat)
    requires Inv(s, d) && s.dbs != [] && Enabled(s, Begin(r, user, route), d)
    ensures Inv(StepBegin(s, r, user, route), d)
  {
    var s' := StepBegin(s, r, user, route);
    SameCounters(s, s');
    AllKept(s, s', d);
    ReadOk(UserCounter(s, user), s.now, |s.dbs| - 1);
  }

  lemma GlobalRead(s: State, q: Request, d: nat)
    requires CountersOk(s) && q.UserRead? && RequestOk(s, q, d)
    ensures RequestOk(s, Active(q.user, q.route, Tags(q.userTag, Read(s.global, s.now)), BothRead), d)
  {
    ReadOk(s.global, s.now, |s.dbs| - 1);
  }

  lemma ReadGlobalStep(s: State, r: RequestId, d: nat)
    requires Inv(s, d) && s.dbs != [] && Enabled(s, ReadGlobal(r), d)
    ensures Inv(StepReadGlobal(s, r, s.requests[r]), d)
  {
    hide CounterOk, Extends, RequestOk, AnswerOk;
    var s', q := StepReadGlobal(s, r, s.requests[r]), s.requests[r];
    assert RequestOk(s, q, d);
    SameCounters(s, s');
    GlobalRead(s, q, d);
    RequestKept(s, s', s'.requests[r], d);
    AllKept(s, s', d);
  }

  lemma WorldStep(s: State, e: Event, d: nat)
    requires Inv(s, d) && s.dbs != [] && Enabled(s, e, d)
    requires e.Tick? || e.ChangeDb? || e.InvalidateUser? || e.InvalidateAll?
    ensures Inv(Next(s, e, d), d)
  {
    hide Inv;
    match e
    case Tick(seconds) => TickStep(s, s.now + seconds, d);
    case ChangeDb(db) => ChangeDbStep(s, db, d);
    case InvalidateUser(u) => InvalidateUserStep(s, u, d);
    case InvalidateAll => InvalidateAllStep(s, d);
  }

  lemma InvStep(s: State, e: Event, d: nat)
    requires Inv(s, d) && s.dbs != [] && Enabled(s, e, d)
    ensures Inv(Next(s, e, d), d)
  {
    match e
    case Begin(r, user, route) => BeginStep(s, r, user, route, d);
    case ReadGlobal(r) => ReadGlobalStep(s, r, d);
    case Proceed(r) => ProceedStep(s, r, d);
    case _ => WorldStep(s, e, d);
  }

  lemma {:induction false} RunInv(states: seq<State>, events: seq<Event>, d: nat, n: nat)
    requires IsRun(states, events, d) && n <= |events|
    ensures Inv(states[n], d)
  {
    if n > 0 {
      RunInv(states, events, d, n - 1);
      assert Step(states[n - 1], events[n - 1], states[n], d);
      InvStep(states[n - 1], events[n - 1], d);
    }
  }

  /******* Recency *******/

  function Current(s: State): Db
    requires s.dbs != []
  {
    s.dbs[|s.dbs| - 1]
  }

  /** In state m the database had its state number `seen`, at the time `asOf`, and gave the user these roles. */
  ghost predicate RolesAt(states: seq<State>, m: nat, user: User, roles: set<Role>, seen: nat, asOf: Instant)
    requires m < |states|
  {
    |states[m].dbs| == seen + 1 && states[m].now == asOf && roles == RolesOf(Current(states[m]), user)
  }

  /** In state m the database had its state number `seen`, and gave these roles that answer. */
  ghost predicate GrantsAt(states: seq<State>, m: nat, roles: set<Role>, route: Route, value: bool, seen: nat)
    requires m < |states|
  {
    |states[m].dbs| == seen + 1 && value == Granted(roles, route, Current(states[m]))
  }

  /** By state n the roles had been read. */
  ghost predicate RolesSeen(states: seq<State>, n: nat, user: User, roles: set<Role>, seen: nat, asOf: Instant)
    requires n < |states|
  {
    exists m :: 0 <= m <= n && RolesAt(states, m, user, roles, seen, asOf)
  }

  /** By state n the answer had been read from the database: the roles, and then or later the grants. */
  ghost predicate AnswerSeen(states: seq<State>, n: nat, user: User, route: Route, value: bool, o: Origin)
    requires n < |states|
  {
    exists roles, m :: 0 <= m <= n && RolesSeen(states, m, user, roles, o.seen, o.asOf)
      && GrantsAt(states, m, roles, route, value, o.seenGrants)
  }

  /** By state n the answer had been given, at the time `at`, and had been read from the database before. */
  ghost predicate GivenSeen(states: seq<State>, n: nat, user: User, route: Route, value: bool, o: Origin, at: Instant)
    requires n < |states|
  {
    exists m :: 0 <= m <= n && states[m].now == at && AnswerSeen(states, m, user, route, value, o)
  }

  ghost predicate PhaseSeen(states: seq<State>, n: nat, q: Request)
    requires n < |states|
  {
    q.Active? ==>
      match q.phase
      case RolesRead(roles, seen, asOf) => RolesSeen(states, n, q.user, roles, seen, asOf)
      case Queried(value, o) => AnswerSeen(states, n, q.user, q.route, value, o)
      case Returned(at, answer, o) => GivenSeen(states, n, q.user, q.route, answer, o, at)
      case _ => true
  }

  ghost predicate AllSeen(states: seq<State>, n: nat)
    requires n < |states|
  {
    && (forall key :: key in states[n].answers ==>
          AnswerSeen(states, n, key.user, key.route, states[n].answers[key].value, states[n].answers[key].origin))
    && forall r :: r in states[n].requests ==> PhaseSeen(states, n, states[n].requests[r])
  }

  lemma SeenStays(states: seq<State>, n: nat, q: Request)
    requires n + 1 < |states| && PhaseSeen(states, n, q)
    ensures PhaseSeen(states, n + 1, q)
  {
  }

  lemma SeenNext(states: seq<State>, n: nat, q: Request)
    requires n + 1 < |states| && states[n].dbs != [] && q.Active? && AllSeen(states, n) && PhaseSeen(states, n, q)
    ensures PhaseSeen(states, n + 1, q.(phase := NextPhase(states[n], q)))
  {
    var s := states[n];
    var last := |s.dbs| - 1;
    match q.phase
    case BothRead =>
      var key := KeyOf(q);
      assert key in s.answers ==> AnswerSeen(states, n, q.user, q.route, s.answers[key].value, s.answers[key].origin);
    case Missed =>
      var roles := RolesOf(s.dbs[last], q.user);
      assert RolesAt(states, n, q.user, roles, last, s.now);
      assert RolesSeen(states, n, q.user, roles, last, s.now);
      if roles == {} {
        assert GrantsAt(states, n, roles, q.route, false, last);
        assert AnswerSeen(states, n, q.user, q.route, false, Origin(last, last, s.now, q.tags));
      }
    case RolesRead(roles, seen, asOf) =>
      assert GrantsAt(states, n, roles, q.route, Granted(roles, q.route, s.dbs[last]), last);
    case _ =>
  }

  lemma SeenStep(states: seq<State>, n: nat, e: Event, d: nat)
    requires n + 1 < |states| && Step(states[n], e, states[n + 1], d) && AllSeen(states, n)
    ensures AllSeen(states, n + 1)
  {
    var s, s' := states[n], states[n + 1];
    forall r | r in s'.requests ensures PhaseSeen(states, n + 1, s'.requests[r]) {
      if r in s.requests && s'.requests[r] == s.requests[r] {
        SeenStays(states, n, s.requests[r]);
      } else if e.Proceed? {
        SeenNext(states, n, s.requests[r]);
      }
    }
    forall key | key in s'.answers
      ensures AnswerSeen(states, n + 1, key.user, key.route, s'.answers[key].value, s'.answers[key].origin)
    {
      if key in s.answers && s'.answers[key] == s.answers[key] {
        assert AnswerSeen(states, n, key.user, key.route, s.answers[key].value, s.answers[key].origin);
      } else {
        assert PhaseSeen(states, n, s.requests[e.r]);
      }
    }
  }

  lemma {:induction false} RunSeen(states: seq<State>, events: seq<Event>, d: nat, n: nat)
    requires IsRun(states, events, d) && n <= |events|
    ensures AllSeen(states, n)
  {
    if n > 0 {
      RunSeen(states, events, d, n - 1);
      assert Step(states[n - 1], events[n - 1], states[n], d);
      SeenStep(states, n - 1, events[n - 1], d);
    }
  }

  /**
    Every answer is what the database said: in some state of the run the database gave the user those roles, in
    the same or a later one it gave the roles that answer, and the answer was given at most 300 s plus the
    longest request after the first of the two.
  */
  lemma AnswersAreRecent(states: seq<State>, events: seq<Event>, d: nat, n: nat, r: RequestId)
      returns (m: nat, m': nat, k: nat)
    requires IsRun(states, events, d) && n <= |events|
    requires r in states[n].requests && states[n].requests[r].Active? && states[n].requests[r].phase.Returned?
    ensures var q := states[n].requests[r];
            && m <= m' <= k <= n && states[m].dbs != [] && states[m'].dbs != []
            && q.phase.answer == Granted(RolesOf(Current(states[m]), q.user), q.route, Current(states[m']))
            && q.phase.at == states[k].now <= states[m].now + PERMISSION_CACHE + d
            && |states[m].dbs| == q.phase.source.seen + 1 && |states[m'].dbs| == q.phase.source.seenGrants + 1
  {
    RunInv(states, events, d, n);
    RunSeen(states, events, d, n);
    var q := states[n].requests[r];
    assert RequestOk(states[n], q, d) && PhaseSeen(states, n, q);
    var o := q.phase.source;
    k :| 0 <= k <= n && states[k].now == q.phase.at && AnswerSeen(states, k, q.user, q.route, q.phase.answer, o);
    var roles;
    roles, m' :| 0 <= m' <= k && RolesSeen(states, m', q.user, roles, o.seen, o.asOf)
      && GrantsAt(states, m', roles, q.route, q.phase.answer, o.seenGrants);
    m :| 0 <= m <= m' && RolesAt(states, m, q.user, roles, o.seen, o.asOf);
  }

  /******* Freshness *******/

  /** The database state that was read includes what every invalidation before `t` announced. */
  ghost predicate Fresh(c: Counter, t: Instant, seen: nat) {
    forall k :: 0 <= k < |c.bumps| && c.bumps[k].at < t ==> c.bumps[k].db <= seen
  }

  /** No invalidation lies exactly one version lifetime before an instant after `from` and up to `to`. */
  ghost predicate NoneADayBefore(c: Counter, from: Instant, to: Instant) {
    forall k :: 0 <= k < |c.bumps| ==> !(from < c.bumps[k].at + VERSION_EXPIRE_TIME <= to)
  }

  lemma LapsesFollowBumps(c: Counter, now: Instant, db: nat, from: Instant, to: Instant)
    requires CounterOk(c, now, db) && NoneADayBefore(c, from, to)
    ensures NoLapse(c, from, to)
  {
    forall k | 0 <= k < |c.lapses| ensures !(from < c.lapses[k].at <= to) {
      assert c.lapses[k].at == c.bumps[c.lapses[k].base - 1].at + VERSION_EXPIRE_TIME;
    }
  }

  lemma CounterFresh(c: Counter, now: Instant, db: nat, writer: Tag, reader: Tag, seen: nat)
    requires CounterOk(c, now, db) && TagOk(c, writer, now) && TagOk(c, reader, now) && writer.value == reader.value
    requires Reflects(c, writer, seen)
    ensures reader.bumps <= writer.bumps <==> NoLapse(c, writer.at, reader.at)
    ensures NoLapse(c, writer.at, reader.at) ==> Fresh(c, reader.at, seen)
  {
    SameVersionCountsAll(c, now, db, writer, reader);
  }

  /**
    Freshness, for each of the two versions: the read that the answer stems from has counted every invalidation
    that this request's read has if and only if the version did not lapse between the two reads; and then the
    answer includes everything announced by invalidations made before this request read the version.
  */
  lemma AnswersAreFresh(states: seq<State>, events: seq<Event>, d: nat, n: nat, r: RequestId)
    requires IsRun(states, events, d) && n <= |events|
    requires r in states[n].requests && states[n].requests[r].Active? && states[n].requests[r].phase.Returned?
    ensures var s, q := states[n], states[n].requests[r];
            var c, mine, theirs := UserCounter(s, q.user), q.tags.user, q.phase.source.tags.user;
            && (mine.bumps <= theirs.bumps <==> NoLapse(c, theirs.at, mine.at))
            && (NoLapse(c, theirs.at, mine.at) ==> Fresh(c, mine.at, q.phase.source.seen))
    ensures var s, q := states[n], states[n].requests[r];
            var c, mine, theirs := s.global, q.tags.global, q.phase.source.tags.global;
            && (mine.bumps <= theirs.bumps <==> NoLapse(c, theirs.at, mine.at))
            && (NoLapse(c, theirs.at, mine.at) ==> Fresh(c, mine.at, q.phase.source.seen))
  {
    RunInv(states, events, d, n);
    var s, q := states[n], states[n].requests[r];
    assert RequestOk(s, q, d);
    var o, c := q.phase.source, UserCounter(s, q.user);
    assert CounterOk(c, s.now, |s.dbs| - 1);
    CounterFresh(c, s.now, |s.dbs| - 1, o.tags.user, q.tags.user, o.seen);
    CounterFresh(s.global, s.now, |s.dbs| - 1, o.tags.global, q.tags.global, o.seen);
  }

  /** In particular an answer is fresh if no invalidation lies exactly a day before the span between the two reads. */
  lemma QuietDayIsFresh(states: seq<State>, events: seq<Event>, d: nat, n: nat, r: RequestId)
    requires IsRun(states, events, d) && n <= |events|
    requires r in states[n].requests && states[n].requests[r].Active? && states[n].requests[r].phase.Returned?
    ensures var s, q := states[n], states[n].requests[r];
            var o, c := q.phase.source, UserCounter(s, q.user);
            NoneADayBefore(c, o.tags.user.at, q.tags.user.at) ==> Fresh(c, q.tags.user.at, o.seen)
    ensures var s, q := states[n], states[n].requests[r];
            var o := q.phase.source;
            NoneADayBefore(s.global, o.tags.global.at, q.tags.global.at) ==> Fresh(s.global, q.tags.global.at, o.seen)
  {
    RunInv(states, events, d, n);
    AnswersAreFresh(states, events, d, n, r);
    var s, q := states[n], states[n].requests[r];
    var o, c := q.phase.source, UserCounter(s, q.user);
    assert CounterOk(c, s.now, |s.dbs| - 1);
    if NoneADayBefore(c, o.tags.user.at, q.tags.user.at) {
      LapsesFollowBumps(c, s.now, |s.dbs| - 1, o.tags.user.at, q.tags.user.at);
    }
    if NoneADayBefore(s.global, o.tags.global.at, q.tags.global.at) {
      LapsesFollowBumps(s.global, s.now, |s.dbs| - 1, o.tags.global.at, q.tags.global.at);
    }
  }

  /******* Without the condition *******/

  ghost predicate Reachable(s: State, d: nat) {
    exists states, events :: IsRun(states, events, d) && states[|events|] == s
  }

  lemma Then(s: State, e: Event, d: nat)
    requires Reachable(s, d) && s.dbs != [] && Enabled(s, e, d)
    ensures Reachable(Next(s, e, d), d)
  {
    var states, events :| IsRun(states, events, d) && states[|events|] == s;
    var states', events' := states + [Next(s, e, d)], events + [e];
    forall i | 0 <= i < |events'| ensures Step(states'[i], events'[i], states'[i + 1], d) {
      assert i < |events| ==> Step(states[i], events[i], states[i + 1], d);
    }
    assert IsRun(states', events', d) && states'[|events'|] == Next(s, e, d);
  }

  const OPEN := Db({(0, 0)}, {(0, 0)})
  const CLOSED := Db({}, {(0, 0)})

  /** The user's version is 1 for one more second. */
  function DayBeforeLapse(): State {
    State(86399, map[0 := Counter(1, 86400, [Bump(0, 0)], [])], FRESH, map[], [OPEN], map[])
  }

  const EARLY := Tags(Tag(1, 86399, 1, 0), Tag(0, 86399, 0, 0))
  const GRANTED := Origin(0, 0, 86399, EARLY)

  /** An answer was stored under version 1. */
  function Cached(): State {
    DayBeforeLapse().(
      answers := map[Key(0, 1, 0, 0) := Answer(true, 86699, GRANTED)],
      requests := map[1 := Active(0, 0, EARLY, Returned(86399, true, GRANTED))])
  }

  /** The version lapsed, the role was taken away, and the invalidation made the version 1 again. */
  function Revoked(): State {
    Cached().(
      now := 86401,
      users := map[0 := Counter(1, 172800, [Bump(0, 0), Bump(86400, 1)], [Lapse(86400, 1)])],
      dbs := [OPEN, CLOSED])
  }

  /** Time passes while only user 0 has a version. */
  lemma ThenTick(s: State, c: Counter, seconds: nat, d: nat)
    requires Reachable(s, d) && s.dbs != [] && s.users == map[0 := c] && s.global == FRESH
    ensures Reachable(s.(now := s.now + seconds, users := map[0 := Expire(c, s.now + seconds)]), d)
  {
    Then(s, Tick(seconds), d);
    assert StepTick(s, s.now + seconds).users == map[0 := Expire(c, s.now + seconds)];
  }

  /** The requests change only. */
  lemma ThenRequest(s: State, e: Event, requests: map<RequestId, Request>, d: nat)
    requires Reachable(s, d) && s.dbs != [] && Enabled(s, e, d)
    requires Next(s, e, d) == s.(requests := requests)
    ensures Reachable(s.(requests := requests), d)
  {
    Then(s, e, d);
  }

  lemma DayBeforeLapseReachable()
    ensures Reachable(DayBeforeLapse(), 0)
  {
    var s0 := State(0, map[], FRESH, map[], [OPEN], map[]);
    var none: seq<Event> := [];
    assert IsRun([s0], none, 0) && [s0][|none|] == s0;
    Then(s0, InvalidateUser(0), 0);
    var c := Counter(1, 86400, [Bump(0, 0)], []);
    assert Increment(FRESH, 0, 0) == c;
    var s1 := s0.(users := map[0 := c]);
    assert StepInvalidateUser(s0, 0).users == s1.users;
    ThenTick(s1, c, 86399, 0);
  }

  const PENDING := Active(0, 0, EARLY, BothRead)

  lemma MissedReachable()
    ensures Reachable(DayBeforeLapse().(requests := map[1 := PENDING.(phase := Missed)]), 0)
  {
    DayBeforeLapseReachable();
    var s := DayBeforeLapse();
    ThenRequest(s, Begin(1, 0, 0), map[1 := UserRead(0, 0, EARLY.user)], 0);
    ThenRequest(s.(requests := map[1 := UserRead(0, 0, EARLY.user)]), ReadGlobal(1), map[1 := PENDING], 0);
    ThenRequest(s.(requests := map[1 := PENDING]), Proceed(1), map[1 := PENDING.(phase := Missed)], 0);
  }

  lemma QueriedReachable()
    ensures Reachable(DayBeforeLapse().(requests := map[1 := PENDING.(phase := Queried(true, GRANTED))]), 0)
  {
    MissedReachable();
    var s := DayBeforeLapse();
    assert RolesOf(OPEN, 0) == {0} by {
      assert (0, 0) in OPEN.members;
    }
    assert Granted({0}, 0, OPEN);
    var q, q' := PENDING.(phase := Missed), PENDING.(phase := RolesRead({0}, 0, 86399));
    ThenRequest(s.(requests := map[1 := q]), Proceed(1), map[1 := q'], 0);
    ThenRequest(s.(requests := map[1 := q']), Proceed(1), map[1 := PENDING.(phase := Queried(true, GRANTED))], 0);
  }

  lemma CachedReachable()
    ensures Reachable(Cached(), 0)
  {
    QueriedReachable();
    var s := DayBeforeLapse().(requests := map[1 := PENDING.(phase := Queried(true, GRANTED))]);
    Then(s, Proceed(1), 0);
    assert StepProceed(s, 1, s.requests[1]) == Cached();
  }

  lemma RevokedReachable()
    ensures Reachable(Revoked(), 0)
  {
    CachedReachable();
    ThenTick(Cached(), Counter(1, 86400, [Bump(0, 0)], []), 1, 0);
    var lapsed := Counter(0, 86400, [Bump(0, 0)], [Lapse(86400, 1)]);
    assert Expire(Counter(1, 86400, [Bump(0, 0)], []), 86400) == lapsed;
    var s1 := Cached().(now := 86400, users := map[0 := lapsed]);
    Then(s1, ChangeDb(CLOSED), 0);
    var s2 := s1.(dbs := [OPEN, CLOSED]);
    assert s1.dbs + [CLOSED] == s2.dbs;
    Then(s2, InvalidateUser(0), 0);
    var c := Revoked().users[0];
    assert Increment(lapsed, 86400, 1) == c;
    var s3 := s2.(users := map[0 := c]);
    assert StepInvalidateUser(s2, 0).users == s3.users;
    ThenTick(s3, c, 1, 0);
  }

  lemma StaleReachable(tags: Tags, q: Request)
    requires tags == Tags(Tag(1, 86401, 2, 1), Tag(0, 86401, 0, 0))
    requires q == Active(0, 0, tags, Returned(86401, true, GRANTED))
    ensures Reachable(Revoked().(requests := Revoked().requests[2 := q]), 0)
  {
    RevokedReachable();
    hide Reachable;
    var s, q0, q1 := Revoked(), UserRead(0, 0, tags.user), q.(phase := BothRead);
    ThenRequest(s, Begin(2, 0, 0), s.requests[2 := q0], 0);
    var s1 := s.(requests := s.requests[2 := q0]);
    ThenRequest(s1, ReadGlobal(2), s1.requests[2 := q1], 0);
    assert s1.requests[2 := q1] == s.requests[2 := q1];
    var s2 := s.(requests := s.requests[2 := q1]);
    ThenRequest(s2, Proceed(2), s2.requests[2 := q], 0);
    assert s2.requests[2 := q] == s.requests[2 := q];
  }

  /**
    A lapse lets an old key come back: a role is taken away and the user invalidated, and a request that
    begins afterwards is still told yes.
  */
  lemma LapseServesRevoked() returns (s: State, q: Request)
    ensures Reachable(s, 0) && 2 in s.requests && s.requests[2] == q && q.Active? && q.phase.Returned?
    ensures q.phase.answer && s.dbs != []
    ensures !Granted(RolesOf(s.dbs[|s.dbs| - 1], q.user), q.route, s.dbs[|s.dbs| - 1])
    ensures !Fresh(UserCounter(s, q.user), q.tags.user.at, q.phase.source.seen)
  {
    var tags := Tags(Tag(1, 86401, 2, 1), Tag(0, 86401, 0, 0));
    q := Active(0, 0, tags, Returned(86401, true, GRANTED));
    StaleReachable(tags, q);
    s := Revoked().(requests := Revoked().requests[2 := q]);
    assert RolesOf(CLOSED, 0) == {};
    assert UserCounter(s, 0).bumps[1] == Bump(86400, 1);
  }
}
