/**
  Ownership of temporary capture tabs by the extension's service worker.

  Every `await` of the handlers is an interleaving point, so the worker is a state
  machine: a pending continuation is a `Cont`, and an event runs one continuation up
  to its next `await`, or lets the browser act. The worker may be killed at any event;
  only the browser's tabs and session storage survive that.
*/
module CaptureLifecycle {

  type TabId = int
  type Url = string
  type PortId = int
  type ContId = int

  const MAIN_URL: Url := "https://www.douyin.com/?recommend=1"
  const CREATOR_URL: Url := "https://creator.douyin.com/creator-micro/data/following/chat"
  const URLS: set<Url> := {MAIN_URL, CREATOR_URL}
  const MAX_SAFE_INTEGER := 9007199254740991
  const MAX_CREATES := 3
  const MAX_RECOVERED := 30

  predicate SafeInteger(n: int) {
    -MAX_SAFE_INTEGER <= n <= MAX_SAFE_INTEGER
  }

  /******* State *******/

  datatype Request = Finish | Create(url: Url, windowId: int) | Other

  datatype Port = Port(closed: bool, created: nat, tabs: set<TabId>)

  /** One suspended handler. `probing` tells the two awaits of `remove` apart. */
  datatype Cont =
    | Accepted(port: PortId, request: Request)
    | Creating(port: PortId, url: Url)
    | Created(port: PortId, url: Url, tab: TabId)
    | Recording(port: PortId, tab: TabId, ticket: nat)
    | Retracting(port: PortId, tab: TabId, probing: bool)
    | Discarding(port: PortId, tab: TabId, probing: bool)
    | DiscardRecording(port: PortId, ticket: nat)
    | CleanupStart(port: PortId, replies: bool)
    | Cleaning(port: PortId, todo: seq<TabId>, probing: bool, replies: bool)
    | CleanupRecording(port: PortId, ticket: nat, replies: bool)
    | Replying(port: PortId)

  datatype Recovery =
    | Reading
    | Reclaiming(current: TabId, rest: seq<(TabId, Url)>, probing: bool)
    | Saving(ticket: nat)
    | Ready
    | Failed

  /** The serialised chain of writes; a write takes its snapshot only when it starts. */
  datatype Chain = Chain(issued: nat, settled: nat, inflight: Snapshot, failed: set<nat>)
  datatype Snapshot = NoWrite | Snapshot(entries: map<TabId, Url>)

  datatype State = State(
    // the browser
    open: set<TabId>,
    seen: set<TabId>,
    store: map<TabId, Url>,
    abandonedCreates: nat,
    // the worker
    owned: map<TabId, Url>,
    ports: map<PortId, Port>,
    conts: map<ContId, Cont>,
    recovery: Recovery,
    chain: Chain,
    // history, read by no handler
    made: map<TabId, PortId>,
    createCalls: map<PortId, nat>,
    removeCalls: set<TabId>,
    failedRemovals: set<TabId>,
    record: map<TabId, Url>,
    orphans: set<TabId>)

  const IDLE_CHAIN := Chain(0, 0, NoWrite, {})

  ghost predicate Init(s: State) {
    && s.open <= s.seen && s.store == map[] && s.abandonedCreates == 0
    && s.owned == map[] && s.ports == map[] && s.conts == map[] && s.recovery == Reading && s.chain == IDLE_CHAIN
    && s.made == map[] && s.createCalls == map[] && s.removeCalls == {} && s.failedRemovals == {}
    && s.record == map[] && s.orphans == {}
  }

  /******* Events *******/

  /** What the browser and its user do on their own. */
  datatype BrowserEvent =
    | UserOpens(tab: TabId)
    | UserCloses(tab: TabId)
    | AbandonedCreate(port: PortId, tab: TabId)

  datatype RecoveryEvent =
    | Reads(order: seq<TabId>)
    | ReadFails
    | RecoveryRemoved
    | RecoveryRemoveRejected
    | RecoveryProbed(found: bool)
    | Saved

  /** What resumes a suspended handler. */
  datatype HandlerEvent =
    | BrowserCreates(tab: TabId)
    | CreateRejected
    | Proceeds(order: seq<TabId>)
    | Removed
    | RemoveRejected
    | Probed(found: bool)
    | Replied(delivered: bool)

  datatype Event =
    | Browser(b: BrowserEvent)
    | Kill(applied: bool)
    | Connect(port: PortId)
    | Message(c: ContId, port: PortId, request: Request)
    | Disconnect(c: ContId, port: PortId)
    | Recover(r: RecoveryEvent)
    | Handler(c: ContId, h: HandlerEvent)
    | WriteStarts
    | WriteSettles(ok: bool)

  ghost predicate Lists(order: seq<TabId>, tabs: set<TabId>) {
    && (forall i, j :: 0 <= i < j < |order| ==> order[i] != order[j])
    && (forall t :: t in order <==> t in tabs)
  }

  predicate IsRemoving(k: Cont) {
    k.Retracting? || k.Discarding? || (k.Cleaning? && k.todo != [])
  }

  function Target(k: Cont): TabId
    requires IsRemoving(k)
  {
    if k.Cleaning? then k.todo[0] else k.tab
  }

  predicate IsSettled(s: State, ticket: nat) {
    ticket <= s.chain.settled
  }

  predicate HasRecovered(s: State) {
    s.recovery.Ready? || s.recovery.Failed?
  }

  ghost predicate BrowserEnabled(s: State, b: BrowserEvent) {
    match b
    case UserOpens(t) => t !in s.seen
    case UserCloses(t) => t in s.open
    case AbandonedCreate(p, t) => s.abandonedCreates > 0 && t !in s.seen && p in s.createCalls && p !in s.ports
  }

  ghost predicate RecoveryEnabled(s: State, r: RecoveryEvent) {
    match r
    case Reads(order) => s.recovery.Reading? && Lists(order, s.store.Keys)
    case ReadFails => s.recovery.Reading?
    case RecoveryRemoved => s.recovery.Reclaiming? && !s.recovery.probing
    case RecoveryRemoveRejected => s.recovery.Reclaiming? && !s.recovery.probing
    case RecoveryProbed(found) =>
      s.recovery.Reclaiming? && s.recovery.probing && (!found ==> s.recovery.current !in s.open)
    case Saved => s.recovery.Saving? && IsSettled(s, s.recovery.ticket)
  }

  /** The await a continuation is suspended at is over. */
  ghost predicate CanProceed(s: State, k: Cont, order: seq<TabId>) {
    match k
    case Accepted(_, _) => HasRecovered(s)
    case Created(_, _, _) => true
    case CleanupStart(p, _) => HasRecovered(s) && p in s.ports && Lists(order, s.ports[p].tabs)
    case Recording(_, _, ticket) => IsSettled(s, ticket)
    case DiscardRecording(_, ticket) => IsSettled(s, ticket)
    case CleanupRecording(_, ticket, _) => IsSettled(s, ticket)
    case _ => false
  }

  ghost predicate HandlerEnabled(s: State, k: Cont, h: HandlerEvent) {
    match h
    case BrowserCreates(t) => k.Creating? && t !in s.seen
    case CreateRejected => k.Creating?
    case Proceeds(order) => CanProceed(s, k, order)
    case Removed => IsRemoving(k) && !k.probing
    case RemoveRejected => IsRemoving(k) && !k.probing
    case Probed(found) => IsRemoving(k) && k.probing && (!found ==> Target(k) !in s.open)
    case Replied(_) => k.Replying?
  }

  ghost predicate Enabled(s: State, e: Event) {
    match e
    case Browser(b) => BrowserEnabled(s, b)
    case Kill(_) => true
    case Connect(p) => p !in s.createCalls
    case Message(c, p, _) => c !in s.conts && p in s.ports
    case Disconnect(c, p) => c !in s.conts && p in s.ports
    case Recover(r) => RecoveryEnabled(s, r)
    case Handler(c, h) => c in s.conts && HandlerEnabled(s, s.conts[c], h)
    case WriteStarts => s.chain.inflight.NoWrite? && s.chain.settled < s.chain.issued
    case WriteSettles(_) => s.chain.inflight.Snapshot?
  }

  /******* Steps *******/

  // Every branch of a handler is a function of its own, named after what it does.

  ghost predicate KeepsConts(s: State, s': State, c: ContId) {
    && (forall d :: d != c ==> (d in s.conts <==> d in s'.conts))
    && (forall d :: d != c && d in s.conts ==> s'.conts[d] == s.conts[d])
  }

  /** No tab is made, orphaned or left to a dead worker's request. */
  predicate SameHistory(s: State, s': State) {
    s'.made == s.made && s'.orphans == s.orphans && s'.abandonedCreates == s.abandonedCreates
  }

  /** The continuation has changed `owned` and will append a write. */
  predicate OwesWrite(k: Cont) {
    k.Discarding? || k.Cleaning?
  }

  /** Handler c leaves `owned` as it was, or appends a write, or owes one. */
  ghost predicate RecordFollows(s: State, c: ContId, s': State) {
    && KeepsConts(s, s', c) && s'.store == s.store && s'.recovery == s.recovery
    && (|| (c in s'.conts && OwesWrite(s'.conts[c]) && s'.chain.failed == s.chain.failed)
        || s'.chain == Longer(s.chain)
        || (s'.chain == s.chain && s'.owned == s.owned && !(c in s'.conts && OwesWrite(s'.conts[c]))))
  }

  function Resume(s: State, c: ContId, k: Cont): State {
    s.(conts := s.conts[c := k])
  }

  function End(s: State, c: ContId): State {
    s.(conts := s.conts - {c})
  }

  function PortAt(s: State, p: PortId): Port {
    if p in s.ports then s.ports[p] else Port(true, 0, {})
  }

  function ClosePort(s: State, p: PortId): State {
    s.(ports := s.ports[p := PortAt(s, p).(closed := true)])
  }

  /** The write chain with one more write; its ticket is the new `issued`. */
  function Longer(chain: Chain): Chain {
    chain.(issued := chain.issued + 1)
  }

  /** `remove` returns: `owned` forgets a tab that is gone. */
  function Forget(s: State, t: TabId, gone: bool): State {
    s.(open := if gone then s.open - {t} else s.open,
       owned := if gone then s.owned - {t} else s.owned,
       failedRemovals := if gone then s.failedRemovals else s.failedRemovals + {t})
  }

  /** The browser opens a tab for port p. */
  function MakeTab(s: State, p: PortId, t: TabId): State {
    s.(open := s.open + {t}, seen := s.seen + {t}, made := s.made[t := p])
  }

  // --- recovery ---

  predicate Admissible(t: TabId, url: Url) {
    SafeInteger(t) && t >= 0 && url in URLS
  }

  /** The recorded entries in the given order, less those with a bad id or URL. */
  function Entries(store: map<TabId, Url>, order: seq<TabId>): (r: seq<(TabId, Url)>)
    requires forall t :: t in order ==> t in store
    ensures |r| <= |order|
    ensures forall x :: x in r ==> x.0 in order && x.0 in store && x.1 == store[x.0] && Admissible(x.0, x.1)
    ensures forall t :: t in order && Admissible(t, store[t]) ==> (t, store[t]) in r
  {
    if order == [] then [] else
    var t := order[0];
    (if Admissible(t, store[t]) then [(t, store[t])] else []) + Entries(store, order[1..])
  }

  function FirstRecorded(order: seq<TabId>): seq<TabId> {
    if |order| <= MAX_RECOVERED then order else order[..MAX_RECOVERED]
  }

  function ReclaimNext(s: State, rest: seq<(TabId, Url)>): State
    requires rest != []
  {
    s.(owned := s.owned[rest[0].0 := rest[0].1], removeCalls := s.removeCalls + {rest[0].0},
       recovery := Reclaiming(rest[0].0, rest[1..], false))
  }

  function SaveRecovery(s: State): State {
    s.(chain := Longer(s.chain), recovery := Saving(s.chain.issued + 1))
  }

  /** Takes over the next recorded tab and starts removing it, or records the result. */
  function RecoveryNext(s: State, rest: seq<(TabId, Url)>): (r: State)
    ensures SameHistory(s, r) && r.open == s.open && r.store == s.store
  {
    if rest == [] then SaveRecovery(s) else ReclaimNext(s, rest)
  }

  /** The recorded entries taken over; those left behind are orphans. */
  function Taken(store: map<TabId, Url>, taken: seq<(TabId, Url)>): map<TabId, Url> {
    map t | t in store && (t, store[t]) in taken :: store[t]
  }

  function TakeRecord(s: State, record: map<TabId, Url>): State {
    s.(record := record,
       orphans := (s.orphans - record.Keys) + set t | t in s.open && t in s.store && t !in record)
  }

  function StartRecovery(s: State, order: seq<TabId>): (r: State)
    requires forall t :: t in order ==> t in s.store
    ensures r.made == s.made && r.abandonedCreates == s.abandonedCreates
  {
    var taken := Entries(s.store, FirstRecorded(order));
    TakeRecord(RecoveryNext(s, taken), Taken(s.store, taken))
  }

  function RecoveryStep(s: State, e: RecoveryEvent): (r: State)
    requires RecoveryEnabled(s, e)
    ensures r.made == s.made && r.abandonedCreates == s.abandonedCreates
    ensures !e.Reads? ==> r.orphans == s.orphans
  {
    match e
    case Reads(order) => StartRecovery(s, order)
    case ReadFails => s.(recovery := Failed)
    case RecoveryRemoved => RecoveryNext(Forget(s, s.recovery.current, true), s.recovery.rest)
    case RecoveryRemoveRejected => s.(recovery := s.recovery.(probing := true))
    case RecoveryProbed(found) => RecoveryNext(Forget(s, s.recovery.current, !found), s.recovery.rest)
    case Saved => s.(recovery := if s.recovery.ticket in s.chain.failed then Failed else Ready)
  }

  // --- requests ---

  predicate IsValidCreate(s: State, p: PortId, request: Request) {
    && !PortAt(s, p).closed && request.Create? && request.url in URLS
    && SafeInteger(request.windowId) && request.windowId >= 0 && PortAt(s, p).created < MAX_CREATES
  }

  /** `closed` is set and the cleanup waits for recovery. */
  function BeginCleanup(s: State, c: ContId, p: PortId, replies: bool): State {
    Resume(ClosePort(s, p), c, CleanupStart(p, replies))
  }

  /** `chrome.tabs.create` is called for port p. */
  function BeginCreate(s: State, c: ContId, p: PortId, url: Url): State {
    var calls := if p in s.createCalls then s.createCalls[p] else 0;
    s.(ports := s.ports[p := PortAt(s, p).(created := PortAt(s, p).created + 1)],
       createCalls := s.createCalls[p := calls + 1],
       conts := s.conts[c := Creating(p, url)])
  }

  function ServeCreate(s: State, c: ContId, p: PortId, request: Request): (r: State)
    ensures SameHistory(s, r)
    ensures RecordFollows(s, c, r)
  {
    if IsValidCreate(s, p, request) then BeginCreate(s, c, p, request.url) else Resume(s, c, Replying(p))
  }

  /** The request handler after `await recovered`, which fails if recovery has. */
  function Serve(s: State, c: ContId, p: PortId, request: Request): (r: State)
    ensures SameHistory(s, r)
    ensures RecordFollows(s, c, r)
  {
    if s.recovery.Failed? then Resume(s, c, Replying(p))
    else if request.Finish? then BeginCleanup(s, c, p, true)
    else ServeCreate(s, c, p, request)
  }

  // --- a created tab ---

  function DiscardLate(s: State, c: ContId, p: PortId, url: Url, t: TabId): State {
    s.(owned := s.owned[t := url], removeCalls := s.removeCalls + {t},
       conts := s.conts[c := Discarding(p, t, false)])
  }

  function AdoptTab(s: State, c: ContId, p: PortId, url: Url, t: TabId): State {
    s.(owned := s.owned[t := url],
       ports := s.ports[p := PortAt(s, p).(tabs := PortAt(s, p).tabs + {t})],
       chain := Longer(s.chain),
       conts := s.conts[c := Recording(p, t, s.chain.issued + 1)])
  }

  /** The create handler after the browser has answered with a tab. */
  function Adopt(s: State, c: ContId, p: PortId, url: Url, t: TabId): (r: State)
    ensures SameHistory(s, r)
    ensures RecordFollows(s, c, r)
    // a refused tab is neither owned nor removed nor listed at its port
    ensures !SafeInteger(t) ==>
      r.owned == s.owned && r.removeCalls == s.removeCalls && r.ports == s.ports && r.chain == s.chain
    // any other is owned, and is either removed again at once, or listed at its port and recorded
    ensures SafeInteger(t) ==> t in r.owned && r.owned[t] == url && r.owned - {t} == s.owned - {t}
    ensures SafeInteger(t) ==>
      if PortAt(s, p).closed then t in r.removeCalls && r.ports == s.ports && c in r.conts && OwesWrite(r.conts[c])
      else t in PortAt(r, p).tabs && r.removeCalls == s.removeCalls && r.chain == Longer(s.chain)
    ensures c in r.conts && r.conts[c].port == p
  {
    if !SafeInteger(t) then Resume(s, c, Replying(p))
    else if PortAt(s, p).closed then DiscardLate(s, c, p, url, t)
    else AdoptTab(s, c, p, url, t)
  }

  function Retract(s: State, c: ContId, p: PortId, t: TabId): State {
    s.(removeCalls := s.removeCalls + {t}, conts := s.conts[c := Retracting(p, t, false)])
  }

  /** A handler after the write it waited for. */
  function AfterRecord(s: State, c: ContId, k: Cont): (r: State)
    ensures SameHistory(s, r)
    ensures RecordFollows(s, c, r)
  {
    if k.Recording? && k.ticket in s.chain.failed then Retract(s, c, k.port, k.tab)
    else if k.CleanupRecording? && !k.replies then End(s, c)
    else Resume(s, c, Replying(k.port))
  }

  // --- cleanup ---

  function CleanNext(s: State, c: ContId, p: PortId, todo: seq<TabId>, replies: bool): State
    requires todo != []
  {
    s.(removeCalls := s.removeCalls + {todo[0]}, conts := s.conts[c := Cleaning(p, todo, false, replies)])
  }

  function RecordCleanup(s: State, c: ContId, p: PortId, replies: bool): State {
    s.(chain := Longer(s.chain), conts := s.conts[c := CleanupRecording(p, s.chain.issued + 1, replies)])
  }

  /** The cleanup loop: start removing the next tab, or record the result. */
  function CleanupNext(s: State, c: ContId, p: PortId, todo: seq<TabId>, replies: bool): (r: State)
    ensures SameHistory(s, r)
    ensures RecordFollows(s, c, r)
  {
    if todo == [] then RecordCleanup(s, c, p, replies) else CleanNext(s, c, p, todo, replies)
  }

  /** The recovery failed: nothing is cleaned up. */
  function GiveUp(s: State, c: ContId, p: PortId, replies: bool): (r: State)
    ensures SameHistory(s, r)
    ensures RecordFollows(s, c, r)
  {
    if replies then Resume(s, c, Replying(p)) else End(s, c)
  }

  /** `cleanup` after `await recovered`. */
  function StartCleaning(s: State, c: ContId, p: PortId, replies: bool, order: seq<TabId>): (r: State)
    ensures SameHistory(s, r)
    ensures RecordFollows(s, c, r)
  {
    if !s.recovery.Failed? then CleanupNext(s, c, p, order, replies) else GiveUp(s, c, p, replies)
  }

  function DropTab(s: State, p: PortId, t: TabId, drop: bool): State {
    s.(ports := s.ports[p := PortAt(s, p).(tabs := if drop then PortAt(s, p).tabs - {t} else PortAt(s, p).tabs)])
  }

  function RecordDiscard(s: State, c: ContId, p: PortId): State {
    s.(chain := Longer(s.chain), conts := s.conts[c := DiscardRecording(p, s.chain.issued + 1)])
  }

  /** A handler after `remove` has returned. */
  function AfterRemove(s: State, c: ContId, k: Cont, gone: bool): (r: State)
    requires IsRemoving(k)
    ensures SameHistory(s, r)
    ensures k.Retracting? || RecordFollows(s, c, r)
    ensures k.Retracting? ==> KeepsConts(s, r, c) && r.chain == s.chain && r.recovery == s.recovery
    ensures OwesWrite(k) ==> r.chain == Longer(s.chain) || (c in r.conts && OwesWrite(r.conts[c]))
  {
    var s1 := Forget(s, Target(k), gone);
    match k
    case Retracting(p, t, _) => Resume(DropTab(s1, p, t, true), c, Replying(p))
    case Discarding(p, _, _) => RecordDiscard(s1, c, p)
    case Cleaning(p, todo, _, replies) => CleanupNext(DropTab(s1, p, todo[0], gone), c, p, todo[1..], replies)
  }

  // --- dispatch ---

  function Proceed(s: State, c: ContId, k: Cont, order: seq<TabId>): (r: State)
    ensures SameHistory(s, r)
    ensures RecordFollows(s, c, r)
  {
    match k
    case Accepted(p, request) => Serve(s, c, p, request)
    case Created(p, url, t) => Adopt(s, c, p, url, t)
    case CleanupStart(p, replies) => StartCleaning(s, c, p, replies, order)
    case _ => AfterRecord(s, c, k)
  }

  function HandlerStep(s: State, c: ContId, k: Cont, h: HandlerEvent): (r: State)
    requires HandlerEnabled(s, k, h)
    ensures forall t :: t in r.made <==> t in s.made || h == BrowserCreates(t)
    ensures r.orphans == s.orphans && r.abandonedCreates == s.abandonedCreates
  {
    match h
    case BrowserCreates(t) => Resume(MakeTab(s, k.port, t), c, Created(k.port, k.url, t))
    case CreateRejected => Resume(s, c, Replying(k.port))
    case Proceeds(order) => Proceed(s, c, k, order)
    case Removed => AfterRemove(s, c, k, true)
    case RemoveRejected => Resume(s, c, k.(probing := true))
    case Probed(found) => AfterRemove(s, c, k, !found)
    // a reply that cannot be posted starts a cleanup
    case Replied(delivered) => if delivered then End(s, c) else BeginCleanup(s, c, k.port, false)
  }

  function BrowserStep(s: State, b: BrowserEvent): (r: State)
    requires BrowserEnabled(s, b)
    ensures forall t :: t in r.made <==> t in s.made || (b.AbandonedCreate? && b.tab == t)
    ensures !b.AbandonedCreate? ==> r.orphans == s.orphans && r.abandonedCreates == s.abandonedCreates
  {
    match b
    case UserOpens(t) => s.(open := s.open + {t}, seen := s.seen + {t})
    case UserCloses(t) => s.(open := s.open - {t})
    case AbandonedCreate(p, t) =>
      MakeTab(s, p, t).(abandonedCreates := s.abandonedCreates - 1, orphans := s.orphans + {t})
  }

  /** What the storage holds after the worker dies; a write in flight may or may not have reached it. */
  function Surviving(s: State, applied: bool): map<TabId, Url> {
    if applied && s.chain.inflight.Snapshot? then s.chain.inflight.entries else s.store
  }

  function Restart(s: State, store: map<TabId, Url>): State {
    s.(store := store,
       abandonedCreates := s.abandonedCreates + |set c | c in s.conts && s.conts[c].Creating?|,
       owned := map[], ports := map[], conts := map[], recovery := Reading, chain := IDLE_CHAIN, record := map[],
       orphans := s.orphans + set t | t in s.open && t in s.made && t !in store)
  }

  function OpenPort(s: State, p: PortId): State {
    s.(ports := s.ports[p := Port(false, 0, {})], createCalls := s.createCalls[p := 0])
  }

  function StartWrite(s: State): State {
    s.(chain := s.chain.(inflight := Snapshot(s.owned)))
  }

  function SettleWrite(s: State, ok: bool): State
    requires s.chain.inflight.Snapshot?
  {
    var ticket := s.chain.settled + 1;
    s.(store := if ok then s.chain.inflight.entries else s.store,
       chain := Chain(s.chain.issued, ticket, NoWrite, if ok then s.chain.failed else s.chain.failed + {ticket}))
  }

  /** Only two events make a tab. */
  predicate Makes(e: Event, t: TabId) {
    (e.Handler? && e.h == BrowserCreates(t)) || (e.Browser? && e.b.AbandonedCreate? && e.b.tab == t)
  }

  function Next(s: State, e: Event): (r: State)
    requires Enabled(s, e)
    ensures forall t :: t in r.made <==> t in s.made || Makes(e, t)
  {
    match e
    case Browser(b) => BrowserStep(s, b)
    case Kill(applied) => Restart(s, Surviving(s, applied))
    case Connect(p) => OpenPort(s, p)
    case Message(c, p, request) => Resume(s, c, Accepted(p, request))
    case Disconnect(c, p) => BeginCleanup(s, c, p, false)
    case Recover(r) => RecoveryStep(s, r)
    case Handler(c, h) => HandlerStep(s, c, s.conts[c], h)
    case WriteStarts => StartWrite(s)
    case WriteSettles(ok) => SettleWrite(s, ok)
  }

  /******* Runs *******/

  /** A run starts in an initial state and takes enabled events one at a time. */
  ghost predicate IsRun(states: seq<State>, events: seq<Event>) {
    && |states| == |events| + 1 && Init(states[0])
    && forall i :: 0 <= i < |events| ==> Enabled(states[i], events[i]) && states[i + 1] == Next(states[i], events[i])
  }

  /******* Invariants over continuations and ports *******/

  ghost predicate IsMade(s: State, p: PortId, t: TabId) {
    t in s.made && s.made[t] == p
  }

  /** A continuation holds tabs of its own live port only; before recovery is over, none holds a tab. */
  ghost predicate ContOk(s: State, k: Cont) {
    && k.port in s.ports
    && (!s.recovery.Ready? ==> k.Accepted? || k.CleanupStart? || k.Replying?)
    && (k.Created? || k.Recording? || k.Retracting? || k.Discarding? ==> IsMade(s, k.port, k.tab))
    && (k.Creating? || k.Created? ==> k.url in URLS)
    && (k.Retracting? ==> s.chain.failed != {})
    && (k.Cleaning? ==> k.todo != [] && forall t :: t in k.todo ==> IsMade(s, k.port, t))
  }

  ghost predicate PortOk(s: State, p: PortId)
    requires p in s.ports
  {
    && p in s.createCalls && s.createCalls[p] == s.ports[p].created <= MAX_CREATES
    && (!s.recovery.Ready? ==> s.ports[p].created == 0 && s.ports[p].tabs == {})
    && (forall t :: t in s.ports[p].tabs ==> IsMade(s, p, t))
  }

  ghost predicate EntriesOk(s: State, m: map<TabId, Url>) {
    forall t :: t in m ==> t in s.made && m[t] in URLS
  }

  ghost predicate ChainOk(recovery: Recovery, chain: Chain) {
    && chain.settled <= chain.issued && (chain.inflight.Snapshot? ==> chain.settled < chain.issued)
    && (recovery.Reading? || recovery.Reclaiming? ==> chain == IDLE_CHAIN)
    && (recovery.Saving? ==> recovery.ticket == chain.issued)
    && (recovery.Failed? ==> chain.inflight.NoWrite? && chain.settled == chain.issued)
  }

  /** Until recovery is over, nothing it has to deal with is missing from the record. */
  ghost predicate StillRecorded(s: State) {
    && (s.recovery.Reclaiming? ==> forall x :: x in s.recovery.rest ==> x.0 in s.store)
    && (!s.recovery.Ready? ==>
          forall t :: t in s.owned ==>
            t in s.store && (s.chain.inflight.Snapshot? ==> t in s.chain.inflight.entries))
  }

  /** Every tab id in the worker or the record belongs to a tab the protocol made. */
  ghost predicate IdsOk(s: State) {
    && (forall t :: t in s.open || t in s.made ==> t in s.seen)
    && (forall t :: t in s.removeCalls ==> t in s.made)
    && EntriesOk(s, s.owned) && EntriesOk(s, s.store)
    && (s.chain.inflight.Snapshot? ==> EntriesOk(s, s.chain.inflight.entries))
    && (s.recovery.Reclaiming? ==>
          s.recovery.current in s.made && forall x :: x in s.recovery.rest ==> x.0 in s.made && x.1 in URLS)
    && (forall t :: t in s.made ==> s.made[t] in s.createCalls)
    && (forall p :: p in s.createCalls ==> s.createCalls[p] <= MAX_CREATES)
    && (forall t :: t in s.record ==> t in s.made)
    && (s.recovery.Reading? ==> s.record == map[])
    && (forall t :: t in s.orphans ==> t in s.made && s.made[t] !in s.ports)
    && ChainOk(s.recovery, s.chain) && StillRecorded(s)
    && (!s.recovery.Ready? ==> forall t :: t in s.made ==> s.made[t] !in s.ports)
  }

  ghost predicate WorkerOk(s: State) {
    && IdsOk(s)
    && (forall p :: p in s.ports ==> PortOk(s, p))
    && (forall c :: c in s.conts ==> ContOk(s, s.conts[c]))
  }

  /** Nothing made is forgotten, and recovery stays over. */
  ghost predicate Grows(s: State, s': State) {
    && (forall t :: t in s.made ==> t in s'.made && s'.made[t] == s.made[t])
    && (s.recovery.Ready? ==> s'.recovery.Ready?)
    && (s.chain.failed != {} ==> s'.chain.failed != {})
  }

  ghost predicate KeepsPorts(s: State, s': State, p: PortId) {
    && (p in s.ports ==> p in s'.ports)
    && (forall q :: q != p ==> (q in s.ports <==> q in s'.ports))
    && (forall q :: q != p && q in s.ports ==> s'.ports[q] == s.ports[q])
    && (forall q :: q != p && q in s.createCalls ==> q in s'.createCalls && s'.createCalls[q] == s.createCalls[q])
  }

  /** All but continuation c and port p is kept. */
  ghost predicate Touches(s: State, s': State, c: ContId, p: PortId) {
    Grows(s, s') && KeepsPorts(s, s', p) && KeepsConts(s, s', c)
  }

  /** Only the touched continuation and port need a look. */
  lemma WorkerOkKept(s: State, s': State, c: ContId, p: PortId)
    requires WorkerOk(s) && Touches(s, s', c, p) && IdsOk(s')
    requires c in s'.conts ==> ContOk(s', s'.conts[c])
    requires p in s'.ports ==> PortOk(s', p)
    ensures WorkerOk(s')
  {
    forall d | d in s'.conts ensures ContOk(s', s'.conts[d]) {
      if d != c { assert ContOk(s, s.conts[d]); }
    }
    forall q | q in s'.ports ensures PortOk(s', q) {
      if q != p { assert PortOk(s, q); }
    }
  }

  // --- each step keeps WorkerOk; one lemma for each thing a handler does ---

  lemma ResumeOk(s: State, c: ContId, k: Cont)
    requires WorkerOk(s) && ContOk(s, k)
    ensures WorkerOk(Resume(s, c, k))
  {
    assert PortOk(s, k.port);
    WorkerOkKept(s, Resume(s, c, k), c, k.port);
  }

  lemma EndOk(s: State, c: ContId)
    requires WorkerOk(s) && c in s.conts
    ensures WorkerOk(End(s, c))
  {
    assert ContOk(s, s.conts[c]) && PortOk(s, s.conts[c].port);
    WorkerOkKept(s, End(s, c), c, s.conts[c].port);
  }

  lemma BeginCleanupOk(s: State, c: ContId, p: PortId, replies: bool)
    requires WorkerOk(s) && p in s.ports
    ensures WorkerOk(BeginCleanup(s, c, p, replies))
  {
    assert PortOk(s, p);
    WorkerOkKept(s, BeginCleanup(s, c, p, replies), c, p);
  }

  lemma BeginCreateOk(s: State, c: ContId, p: PortId, url: Url)
    requires WorkerOk(s) && p in s.ports && s.recovery.Ready? && PortAt(s, p).created < MAX_CREATES && url in URLS
    ensures WorkerOk(BeginCreate(s, c, p, url))
  {
    assert PortOk(s, p);
    WorkerOkKept(s, BeginCreate(s, c, p, url), c, p);
  }

  lemma DiscardLateOk(s: State, c: ContId, p: PortId, url: Url, t: TabId)
    requires WorkerOk(s) && p in s.ports && s.recovery.Ready? && IsMade(s, p, t) && url in URLS
    ensures WorkerOk(DiscardLate(s, c, p, url, t))
  {
    assert PortOk(s, p);
    WorkerOkKept(s, DiscardLate(s, c, p, url, t), c, p);
  }

  lemma RetractOk(s: State, c: ContId, p: PortId, t: TabId)
    requires WorkerOk(s) && s.chain.failed != {} && p in s.ports && s.recovery.Ready? && IsMade(s, p, t)
    ensures WorkerOk(Retract(s, c, p, t))
  {
    assert PortOk(s, p);
    WorkerOkKept(s, Retract(s, c, p, t), c, p);
  }

  lemma RecordCleanupOk(s: State, c: ContId, p: PortId, replies: bool)
    requires WorkerOk(s) && p in s.ports && s.recovery.Ready?
    ensures WorkerOk(RecordCleanup(s, c, p, replies))
  {
    assert PortOk(s, p);
    WorkerOkKept(s, RecordCleanup(s, c, p, replies), c, p);
  }

  lemma CleanNextOk(s: State, c: ContId, p: PortId, todo: seq<TabId>, replies: bool)
    requires WorkerOk(s) && p in s.ports && s.recovery.Ready?
    requires todo != [] && forall t :: t in todo ==> IsMade(s, p, t)
    ensures WorkerOk(CleanNext(s, c, p, todo, replies))
  {
    assert PortOk(s, p) && IsMade(s, p, todo[0]);
    WorkerOkKept(s, CleanNext(s, c, p, todo, replies), c, p);
  }

  lemma CleanupNextOk(s: State, c: ContId, p: PortId, todo: seq<TabId>, replies: bool)
    requires WorkerOk(s) && p in s.ports && s.recovery.Ready? && forall t :: t in todo ==> IsMade(s, p, t)
    ensures WorkerOk(CleanupNext(s, c, p, todo, replies))
  {
    if todo == [] {
      RecordCleanupOk(s, c, p, replies);
    } else {
      CleanNextOk(s, c, p, todo, replies);
    }
  }

  lemma ForgetOk(s: State, c: ContId, t: TabId, gone: bool)
    requires WorkerOk(s) && c in s.conts
    ensures WorkerOk(Forget(s, t, gone))
  {
    assert ContOk(s, s.conts[c]) && PortOk(s, s.conts[c].port);
    WorkerOkKept(s, Forget(s, t, gone), c, s.conts[c].port);
  }

  lemma DropTabOk(s: State, c: ContId, p: PortId, t: TabId, drop: bool)
    requires WorkerOk(s) && c in s.conts && s.conts[c].port == p
    ensures WorkerOk(DropTab(s, p, t, drop))
  {
    assert ContOk(s, s.conts[c]) && PortOk(s, p);
    WorkerOkKept(s, DropTab(s, p, t, drop), c, p);
  }

  lemma RecordDiscardOk(s: State, c: ContId, p: PortId)
    requires WorkerOk(s) && p in s.ports && s.recovery.Ready?
    ensures WorkerOk(RecordDiscard(s, c, p))
  {
    assert PortOk(s, p);
    WorkerOkKept(s, RecordDiscard(s, c, p), c, p);
  }

  lemma AfterRemoveOk(s: State, c: ContId, gone: bool)
    requires WorkerOk(s) && c in s.conts && IsRemoving(s.conts[c])
    ensures WorkerOk(AfterRemove(s, c, s.conts[c], gone))
  {
    var k := s.conts[c];
    assert ContOk(s, k);
    var s1 := Forget(s, Target(k), gone);
    ForgetOk(s, c, Target(k), gone);
    hide WorkerOk;
    match k
    case Retracting(p, t, _) =>
      DropTabOk(s1, c, p, t, true);
      ResumeOk(DropTab(s1, p, t, true), c, Replying(p));
    case Discarding(p, _, _) => RecordDiscardOk(s1, c, p);
    case Cleaning(p, todo, _, replies) =>
      DropTabOk(s1, c, p, todo[0], gone);
      CleanupNextOk(DropTab(s1, p, todo[0], gone), c, p, todo[1..], replies);
  }

  lemma ServeOk(s: State, c: ContId, p: PortId, request: Request)
    requires WorkerOk(s) && p in s.ports && HasRecovered(s)
    ensures WorkerOk(Serve(s, c, p, request))
  {
    if !s.recovery.Failed? && request.Finish? {
      BeginCleanupOk(s, c, p, true);
    } else if !s.recovery.Failed? && IsValidCreate(s, p, request) {
      BeginCreateOk(s, c, p, request.url);
    } else {
      ResumeOk(s, c, Replying(p));
    }
  }

  lemma AdoptTabOk(s: State, c: ContId, p: PortId, url: Url, t: TabId)
    requires WorkerOk(s) && p in s.ports && s.recovery.Ready? && IsMade(s, p, t) && url in URLS
    ensures WorkerOk(AdoptTab(s, c, p, url, t))
  {
    assert PortOk(s, p);
    WorkerOkKept(s, AdoptTab(s, c, p, url, t), c, p);
  }

  lemma AdoptOk(s: State, c: ContId, p: PortId, url: Url, t: TabId)
    requires WorkerOk(s) && ContOk(s, Created(p, url, t))
    ensures WorkerOk(Adopt(s, c, p, url, t))
  {
    hide WorkerOk;
    if !SafeInteger(t) {
      ResumeOk(s, c, Replying(p));
    } else if PortAt(s, p).closed {
      DiscardLateOk(s, c, p, url, t);
    } else {
      AdoptTabOk(s, c, p, url, t);
    }
  }

  lemma AfterRecordOk(s: State, c: ContId)
    requires WorkerOk(s) && c in s.conts
    ensures WorkerOk(AfterRecord(s, c, s.conts[c]))
  {
    var k := s.conts[c];
    assert ContOk(s, k);
    if k.Recording? && k.ticket in s.chain.failed {
      RetractOk(s, c, k.port, k.tab);
    } else if k.CleanupRecording? && !k.replies {
      EndOk(s, c);
    } else {
      ResumeOk(s, c, Replying(k.port));
    }
  }

  lemma StartCleaningOk(s: State, c: ContId, p: PortId, replies: bool, order: seq<TabId>)
    requires WorkerOk(s) && c in s.conts && p in s.ports && HasRecovered(s) && Lists(order, s.ports[p].tabs)
    ensures WorkerOk(StartCleaning(s, c, p, replies, order))
  {
    if !s.recovery.Failed? {
      assert PortOk(s, p);
      CleanupNextOk(s, c, p, order, replies);
    } else if replies {
      ResumeOk(s, c, Replying(p));
    } else {
      EndOk(s, c);
    }
  }

  lemma ProceedOk(s: State, c: ContId, order: seq<TabId>)
    requires WorkerOk(s) && c in s.conts && CanProceed(s, s.conts[c], order)
    ensures WorkerOk(Proceed(s, c, s.conts[c], order))
  {
    assert ContOk(s, s.conts[c]);
    match s.conts[c]
    case Accepted(p, request) => ServeOk(s, c, p, request);
    case Created(p, url, t) => AdoptOk(s, c, p, url, t);
    case CleanupStart(p, replies) => StartCleaningOk(s, c, p, replies, order);
    case _ => AfterRecordOk(s, c);
  }

  lemma MakeTabOk(s: State, c: ContId, p: PortId, url: Url, t: TabId)
    requires WorkerOk(s) && c in s.conts && s.conts[c] == Creating(p, url) && t !in s.seen
    ensures WorkerOk(Resume(MakeTab(s, p, t), c, Created(p, url, t)))
  {
    assert ContOk(s, s.conts[c]) && PortOk(s, p);
    WorkerOkKept(s, Resume(MakeTab(s, p, t), c, Created(p, url, t)), c, p);
  }

  lemma HandlerStepOk(s: State, c: ContId, h: HandlerEvent)
    requires WorkerOk(s) && c in s.conts && HandlerEnabled(s, s.conts[c], h)
    ensures WorkerOk(HandlerStep(s, c, s.conts[c], h))
  {
    var k := s.conts[c];
    assert ContOk(s, k);
    hide WorkerOk;
    match h
    case BrowserCreates(t) => MakeTabOk(s, c, k.port, k.url, t);
    case CreateRejected => ResumeOk(s, c, Replying(k.port));
    case Proceeds(order) => ProceedOk(s, c, order);
    case Removed => AfterRemoveOk(s, c, true);
    case RemoveRejected => ResumeOk(s, c, k.(probing := true));
    case Probed(found) => AfterRemoveOk(s, c, !found);
    case Replied(delivered) => if delivered { EndOk(s, c); } else { BeginCleanupOk(s, c, k.port, false); }
  }

  /** Steps that touch no continuation and no port. */
  lemma UntouchedOk(s: State, s': State)
    requires WorkerOk(s) && IdsOk(s') && Grows(s, s')
    requires s'.conts == s.conts && s'.ports == s.ports && s'.createCalls == s.createCalls
    ensures WorkerOk(s')
  {
    forall c | c in s'.conts ensures ContOk(s', s'.conts[c]) {
      assert ContOk(s, s.conts[c]);
    }
    forall p | p in s'.ports ensures PortOk(s', p) {
      assert PortOk(s, p);
    }
  }

  lemma RecoveryNextOk(s: State, rest: seq<(TabId, Url)>)
    requires WorkerOk(s) && (s.recovery.Reading? || s.recovery.Reclaiming?)
    requires forall x :: x in rest ==> x.0 in s.made && x.0 in s.store && x.1 in URLS
    ensures WorkerOk(RecoveryNext(s, rest))
  {
    if rest == [] {
      UntouchedOk(s, SaveRecovery(s));
    } else {
      assert rest[0] in rest;
      UntouchedOk(s, ReclaimNext(s, rest));
    }
  }

  lemma TakeRecordOk(s: State, record: map<TabId, Url>)
    requires WorkerOk(s) && !s.recovery.Reading? && !s.recovery.Ready? && EntriesOk(s, record)
    ensures WorkerOk(TakeRecord(s, record))
  {
    UntouchedOk(s, TakeRecord(s, record));
  }

  lemma StartRecoveryOk(s: State, order: seq<TabId>)
    requires WorkerOk(s) && s.recovery.Reading? && Lists(order, s.store.Keys)
    ensures WorkerOk(StartRecovery(s, order))
  {
    var taken := Entries(s.store, FirstRecorded(order));
    RecoveryNextOk(s, taken);
    TakeRecordOk(RecoveryNext(s, taken), Taken(s.store, taken));
  }

  lemma ReclaimedOk(s: State, gone: bool)
    requires WorkerOk(s) && s.recovery.Reclaiming?
    ensures WorkerOk(RecoveryNext(Forget(s, s.recovery.current, gone), s.recovery.rest))
  {
    UntouchedOk(s, Forget(s, s.recovery.current, gone));
    RecoveryNextOk(Forget(s, s.recovery.current, gone), s.recovery.rest);
  }

  lemma ReadFailsOk(s: State)
    requires WorkerOk(s) && s.recovery.Reading?
    ensures WorkerOk(s.(recovery := Failed))
  {
    UntouchedOk(s, s.(recovery := Failed));
  }

  lemma ProbesOk(s: State)
    requires WorkerOk(s) && s.recovery.Reclaiming?
    ensures WorkerOk(s.(recovery := s.recovery.(probing := true)))
  {
    UntouchedOk(s, s.(recovery := s.recovery.(probing := true)));
  }

  lemma SavedOk(s: State)
    requires WorkerOk(s) && RecoveryEnabled(s, Saved)
    ensures WorkerOk(RecoveryStep(s, Saved))
  {
    UntouchedOk(s, RecoveryStep(s, Saved));
  }

  lemma RecoveryStepOk(s: State, r: RecoveryEvent)
    requires WorkerOk(s) && RecoveryEnabled(s, r)
    ensures WorkerOk(RecoveryStep(s, r))
  {
    hide WorkerOk;
    match r
    case Reads(order) => StartRecoveryOk(s, order);
    case RecoveryRemoved => ReclaimedOk(s, true);
    case RecoveryProbed(found) => ReclaimedOk(s, !found);
    case ReadFails => ReadFailsOk(s);
    case RecoveryRemoveRejected => ProbesOk(s);
    case Saved => SavedOk(s);
  }

  lemma AbandonedOk(s: State, p: PortId, t: TabId)
    requires WorkerOk(s) && BrowserEnabled(s, AbandonedCreate(p, t))
    ensures WorkerOk(BrowserStep(s, AbandonedCreate(p, t)))
  {
    UntouchedOk(s, BrowserStep(s, AbandonedCreate(p, t)));
  }

  lemma BrowserStepOk(s: State, b: BrowserEvent)
    requires WorkerOk(s) && BrowserEnabled(s, b)
    ensures WorkerOk(BrowserStep(s, b))
  {
    match b
    case UserOpens(t) => UntouchedOk(s, BrowserStep(s, b));
    case UserCloses(t) => UntouchedOk(s, BrowserStep(s, b));
    case AbandonedCreate(p, t) => AbandonedOk(s, p, t);
  }

  lemma OpenPortOk(s: State, p: PortId)
    requires WorkerOk(s) && p !in s.createCalls
    ensures WorkerOk(OpenPort(s, p))
  {
    var s' := OpenPort(s, p);
    assert p !in s.ports by { assert p in s.ports ==> PortOk(s, p); }
    forall c | c in s'.conts ensures ContOk(s', s'.conts[c]) {
      assert ContOk(s, s.conts[c]);
    }
    forall q | q in s'.ports ensures PortOk(s', q) {
      if q != p { assert PortOk(s, q); }
    }
  }

  lemma RestartOk(s: State, applied: bool)
    requires WorkerOk(s)
    ensures WorkerOk(Restart(s, Surviving(s, applied)))
  {
  }

  lemma MessageOk(s: State, c: ContId, p: PortId, request: Request)
    requires WorkerOk(s) && p in s.ports
    ensures WorkerOk(Resume(s, c, Accepted(p, request)))
  {
    ResumeOk(s, c, Accepted(p, request));
  }

  lemma StartWriteOk(s: State)
    requires WorkerOk(s) && s.chain.inflight.NoWrite? && s.chain.settled < s.chain.issued
    ensures WorkerOk(StartWrite(s))
  {
    UntouchedOk(s, StartWrite(s));
  }

  lemma SettleWriteOk(s: State, ok: bool)
    requires WorkerOk(s) && s.chain.inflight.Snapshot?
    ensures WorkerOk(SettleWrite(s, ok))
  {
    UntouchedOk(s, SettleWrite(s, ok));
  }

  lemma WorkerOkStep(s: State, e: Event)
    requires WorkerOk(s) && Enabled(s, e)
    ensures WorkerOk(Next(s, e))
  {
    hide WorkerOk;
    match e
    case Browser(b) => BrowserStepOk(s, b);
    case Kill(applied) => RestartOk(s, applied);
    case Connect(p) => OpenPortOk(s, p);
    case Message(c, p, request) => MessageOk(s, c, p, request);
    case Disconnect(c, p) => BeginCleanupOk(s, c, p, false);
    case Recover(r) => RecoveryStepOk(s, r);
    case Handler(c, h) => HandlerStepOk(s, c, h);
    case WriteStarts => StartWriteOk(s);
    case WriteSettles(ok) => SettleWriteOk(s, ok);
  }

  /******* Where each open tab is kept *******/

  // What a continuation does about tab t.

  predicate Creates(k: Cont, t: TabId) {
    k.Created? && k.tab == t
  }

  predicate Withdraws(k: Cont, t: TabId) {
    (k.Discarding? || k.Retracting?) && k.tab == t
  }

  predicate Cleans(k: Cont, p: PortId, t: TabId) {
    k.port == p && (k.CleanupStart? || (k.Cleaning? && t in k.todo))
  }

  ghost predicate InCreation(s: State, t: TabId) {
    exists c :: c in s.conts && Creates(s.conts[c], t)
  }

  ghost predicate Withdrawn(s: State, t: TabId) {
    exists c :: c in s.conts && Withdraws(s.conts[c], t)
  }

  ghost predicate CleanupWill(s: State, p: PortId, t: TabId) {
    exists c :: c in s.conts && Cleans(s.conts[c], p, t)
  }

  /** Recovery has not come to tab t yet, or never will in this worker: the record still has it. */
  ghost predicate Awaits(s: State, t: TabId) {
    || ((s.recovery.Reading? || s.recovery.Failed?) && t in s.store)
    || (s.recovery.Reclaiming? && exists x :: x in s.recovery.rest && x.0 == t)
  }

  ghost predicate Tracked(s: State, t: TabId) {
    t in s.owned || InCreation(s, t) || Awaits(s, t) || t in s.orphans
  }

  /** The port of t knows about it: t is listed, or being created or withdrawn, or its removal has failed. */
  ghost predicate PortHolds(s: State, p: PortId, t: TabId)
    requires p in s.ports
  {
    || t in s.failedRemovals || InCreation(s, t) || Withdrawn(s, t)
    || (t in s.ports[p].tabs && (s.ports[p].closed ==> CleanupWill(s, p, t)))
  }

  ghost predicate TabOk(s: State, t: TabId) {
    && t in s.made
    && (t in s.open && SafeInteger(t) ==> Tracked(s, t) && (s.made[t] in s.ports ==> PortHolds(s, s.made[t], t)))
    && (t in s.open && t in s.record ==> t !in s.orphans && (t in s.owned || Awaits(s, t)))
  }

  /** The duties of continuation c are the only ones a step at c can end or begin. */
  lemma DutiesKept(s: State, s': State, c: ContId, p: PortId, t: TabId)
    requires KeepsConts(s, s', c)
    ensures InCreation(s, t) && !(c in s.conts && Creates(s.conts[c], t)) ==> InCreation(s', t)
    ensures Withdrawn(s, t) && !(c in s.conts && Withdraws(s.conts[c], t)) ==> Withdrawn(s', t)
    ensures CleanupWill(s, p, t) && !(c in s.conts && Cleans(s.conts[c], p, t)) ==> CleanupWill(s', p, t)
    ensures c in s'.conts && Creates(s'.conts[c], t) ==> InCreation(s', t)
    ensures c in s'.conts && Withdraws(s'.conts[c], t) ==> Withdrawn(s', t)
    ensures c in s'.conts && Cleans(s'.conts[c], p, t) ==> CleanupWill(s', p, t)
  {
    if d :| d in s.conts && Creates(s.conts[d], t) && !(c in s.conts && Creates(s.conts[c], t)) {
      assert d in s'.conts && Creates(s'.conts[d], t);
    }
    if d :| d in s.conts && Withdraws(s.conts[d], t) && !(c in s.conts && Withdraws(s.conts[c], t)) {
      assert d in s'.conts && Withdraws(s'.conts[d], t);
    }
    if d :| d in s.conts && Cleans(s.conts[d], p, t) && !(c in s.conts && Cleans(s.conts[c], p, t)) {
      assert d in s'.conts && Cleans(s'.conts[d], p, t);
    }
  }

  /** Tab t needs nothing of continuation c any more. */
  ghost predicate Released(s: State, c: ContId, t: TabId) {
    c in s.conts && t in s.open ==>
      || t in s.failedRemovals || !SafeInteger(t)
      || !(Creates(s.conts[c], t) || Withdraws(s.conts[c], t) || s.conts[c].CleanupStart? || s.conts[c].Cleaning?)
  }

  lemma ResumeHolds(s: State, c: ContId, k: Cont, t: TabId)
    requires TabOk(s, t) && Released(s, c, t) && !(c in s.conts && Creates(s.conts[c], t) && SafeInteger(t))
    ensures TabOk(Resume(s, c, k), t)
  {
    DutiesKept(s, Resume(s, c, k), c, s.made[t], t);
  }

  lemma EndHolds(s: State, c: ContId, t: TabId)
    requires TabOk(s, t) && Released(s, c, t) && !(c in s.conts && Creates(s.conts[c], t) && SafeInteger(t))
    ensures TabOk(End(s, c), t)
  {
    DutiesKept(s, End(s, c), c, s.made[t], t);
  }

  lemma BeginCleanupHolds(s: State, c: ContId, p: PortId, replies: bool, t: TabId)
    requires TabOk(s, t) && p in s.ports
    requires c in s.conts ==> s.conts[c].Accepted? || s.conts[c].Replying?
    ensures TabOk(BeginCleanup(s, c, p, replies), t)
  {
    DutiesKept(s, BeginCleanup(s, c, p, replies), c, s.made[t], t);
  }

  lemma BeginCreateHolds(s: State, c: ContId, p: PortId, url: Url, t: TabId)
    requires TabOk(s, t) && p in s.ports && c in s.conts && s.conts[c].Accepted?
    ensures TabOk(BeginCreate(s, c, p, url), t)
  {
    DutiesKept(s, BeginCreate(s, c, p, url), c, s.made[t], t);
  }

  lemma DiscardLateHolds(s: State, c: ContId, p: PortId, url: Url, u: TabId, t: TabId)
    requires TabOk(s, t) && c in s.conts && s.conts[c] == Created(p, url, u)
    ensures TabOk(DiscardLate(s, c, p, url, u), t)
  {
    DutiesKept(s, DiscardLate(s, c, p, url, u), c, s.made[t], t);
  }

  lemma AdoptTabHolds(s: State, c: ContId, p: PortId, url: Url, u: TabId, t: TabId)
    requires TabOk(s, t) && c in s.conts && s.conts[c] == Created(p, url, u)
    requires IsMade(s, p, u) && p in s.ports && !s.ports[p].closed
    ensures TabOk(AdoptTab(s, c, p, url, u), t)
  {
    DutiesKept(s, AdoptTab(s, c, p, url, u), c, s.made[t], t);
  }

  lemma RetractHolds(s: State, c: ContId, p: PortId, u: TabId, t: TabId)
    requires TabOk(s, t) && c in s.conts && s.conts[c].Recording?
    ensures TabOk(Retract(s, c, p, u), t)
  {
    DutiesKept(s, Retract(s, c, p, u), c, s.made[t], t);
  }

  /** The cleanup loop may forget what has left `todo` once it is gone or its removal has failed. */
  ghost predicate StillListed(s: State, c: ContId, todo: seq<TabId>, t: TabId) {
    && c in s.conts && (s.conts[c].CleanupStart? || s.conts[c].Cleaning?)
    && (t in s.open && t !in s.failedRemovals && s.conts[c].port in s.ports && t in s.ports[s.conts[c].port].tabs
        && Cleans(s.conts[c], s.conts[c].port, t)
        ==> t in todo)
  }

  lemma RecordCleanupHolds(s: State, c: ContId, p: PortId, replies: bool, t: TabId)
    requires TabOk(s, t) && StillListed(s, c, [], t)
    ensures TabOk(RecordCleanup(s, c, p, replies), t)
  {
    DutiesKept(s, RecordCleanup(s, c, p, replies), c, s.made[t], t);
  }

  lemma CleanNextHolds(s: State, c: ContId, p: PortId, todo: seq<TabId>, replies: bool, t: TabId)
    requires TabOk(s, t) && todo != [] && StillListed(s, c, todo, t) && s.conts[c].port == p
    ensures TabOk(CleanNext(s, c, p, todo, replies), t)
  {
    DutiesKept(s, CleanNext(s, c, p, todo, replies), c, s.made[t], t);
  }

  lemma ForgetHolds(s: State, u: TabId, gone: bool, t: TabId)
    requires TabOk(s, t)
    ensures TabOk(Forget(s, u, gone), t)
  {
    DutiesKept(s, Forget(s, u, gone), 0, s.made[t], t);
  }

  lemma DropTabHolds(s: State, c: ContId, p: PortId, u: TabId, drop: bool, t: TabId)
    requires TabOk(s, t) && p in s.ports && (u in s.open && drop ==> u in s.failedRemovals)
    ensures TabOk(DropTab(s, p, u, drop), t)
  {
    DutiesKept(s, DropTab(s, p, u, drop), c, s.made[t], t);
  }

  lemma AfterRemoveHolds(s: State, c: ContId, gone: bool, t: TabId)
    requires WorkerOk(s) && TabOk(s, t) && c in s.conts && IsRemoving(s.conts[c])
    ensures TabOk(AfterRemove(s, c, s.conts[c], gone), t)
  {
    var k := s.conts[c];
    assert ContOk(s, k);
    var s1 := Forget(s, Target(k), gone);
    ForgetHolds(s, Target(k), gone, t);
    match k
    case Retracting(p, u, _) =>
      DropTabHolds(s1, c, p, u, true, t);
      ResumeHolds(DropTab(s1, p, u, true), c, Replying(p), t);
    case Discarding(p, _, _) =>
      DutiesKept(s1, RecordDiscard(s1, c, p), c, s.made[t], t);
    case Cleaning(p, todo, _, replies) =>
      DropTabHolds(s1, c, p, todo[0], gone, t);
      var s2 := DropTab(s1, p, todo[0], gone);
      if todo[1..] == [] {
        RecordCleanupHolds(s2, c, p, replies, t);
      } else {
        CleanNextHolds(s2, c, p, todo[1..], replies, t);
      }
  }

  lemma ServeHolds(s: State, c: ContId, p: PortId, request: Request, t: TabId)
    requires TabOk(s, t) && p in s.ports && c in s.conts && s.conts[c].Accepted?
    ensures TabOk(Serve(s, c, p, request), t)
  {
    if !s.recovery.Failed? && request.Finish? {
      BeginCleanupHolds(s, c, p, true, t);
    } else if !s.recovery.Failed? && IsValidCreate(s, p, request) {
      BeginCreateHolds(s, c, p, request.url, t);
    } else {
      ResumeHolds(s, c, Replying(p), t);
    }
  }

  lemma AdoptHolds(s: State, c: ContId, p: PortId, url: Url, u: TabId, t: TabId)
    requires TabOk(s, t) && c in s.conts && s.conts[c] == Created(p, url, u) && ContOk(s, s.conts[c])
    ensures TabOk(Adopt(s, c, p, url, u), t)
  {
    if !SafeInteger(u) {
      ResumeHolds(s, c, Replying(p), t);
    } else if PortAt(s, p).closed {
      DiscardLateHolds(s, c, p, url, u, t);
    } else {
      AdoptTabHolds(s, c, p, url, u, t);
    }
  }

  lemma StartCleaningHolds(s: State, c: ContId, p: PortId, replies: bool, order: seq<TabId>, t: TabId)
    requires WorkerOk(s) && TabOk(s, t) && c in s.conts && s.conts[c] == CleanupStart(p, replies)
    requires HasRecovered(s) && p in s.ports && Lists(order, s.ports[p].tabs)
    ensures TabOk(StartCleaning(s, c, p, replies, order), t)
  {
    assert PortOk(s, p);
    if s.recovery.Failed? {
      if replies {
        DutiesKept(s, Resume(s, c, Replying(p)), c, s.made[t], t);
      } else {
        DutiesKept(s, End(s, c), c, s.made[t], t);
      }
    } else if order == [] {
      RecordCleanupHolds(s, c, p, replies, t);
    } else {
      CleanNextHolds(s, c, p, order, replies, t);
    }
  }

  lemma AfterRecordHolds(s: State, c: ContId, t: TabId)
    requires TabOk(s, t) && c in s.conts
    requires s.conts[c].Recording? || s.conts[c].DiscardRecording? || s.conts[c].CleanupRecording?
    ensures TabOk(AfterRecord(s, c, s.conts[c]), t)
  {
    var k := s.conts[c];
    if k.Recording? && k.ticket in s.chain.failed {
      RetractHolds(s, c, k.port, k.tab, t);
    } else if k.CleanupRecording? && !k.replies {
      EndHolds(s, c, t);
    } else {
      ResumeHolds(s, c, Replying(k.port), t);
    }
  }

  lemma ProceedHolds(s: State, c: ContId, order: seq<TabId>, t: TabId)
    requires WorkerOk(s) && TabOk(s, t) && c in s.conts && CanProceed(s, s.conts[c], order)
    ensures TabOk(Proceed(s, c, s.conts[c], order), t)
  {
    assert ContOk(s, s.conts[c]);
    match s.conts[c]
    case Accepted(p, request) => ServeHolds(s, c, p, request, t);
    case Created(p, url, u) => AdoptHolds(s, c, p, url, u, t);
    case CleanupStart(p, replies) => StartCleaningHolds(s, c, p, replies, order, t);
    case _ => AfterRecordHolds(s, c, t);
  }

  /** Of all tabs made so far or by this step. */
  lemma MakeTabHolds(s: State, c: ContId, p: PortId, url: Url, u: TabId, t: TabId)
    requires WorkerOk(s) && c in s.conts && s.conts[c] == Creating(p, url) && u !in s.seen
    requires t == u || TabOk(s, t)
    ensures TabOk(Resume(MakeTab(s, p, u), c, Created(p, url, u)), t)
  {
    var s' := Resume(MakeTab(s, p, u), c, Created(p, url, u));
    assert ContOk(s, s.conts[c]) && s'.conts[c] == Created(p, url, u);
    DutiesKept(s, s', c, s'.made[t], t);
  }

  lemma HandlerStepHolds(s: State, c: ContId, h: HandlerEvent, t: TabId)
    requires WorkerOk(s) && c in s.conts && HandlerEnabled(s, s.conts[c], h)
    requires TabOk(s, t) || (h.BrowserCreates? && t == h.tab)
    ensures TabOk(HandlerStep(s, c, s.conts[c], h), t)
  {
    var k := s.conts[c];
    assert ContOk(s, k);
    match h
    case BrowserCreates(u) => MakeTabHolds(s, c, k.port, k.url, u, t);
    case CreateRejected => ResumeHolds(s, c, Replying(k.port), t);
    case Proceeds(order) => ProceedHolds(s, c, order, t);
    case Removed => AfterRemoveHolds(s, c, true, t);
    case RemoveRejected => DutiesKept(s, Resume(s, c, k.(probing := true)), c, s.made[t], t);
    case Probed(found) => AfterRemoveHolds(s, c, !found, t);
    case Replied(delivered) =>
      if delivered { EndHolds(s, c, t); } else { BeginCleanupHolds(s, c, k.port, false, t); }
  }

  /** Recovery goes on with `rest`, in which every recorded tab is that has not been taken over. */
  lemma RecoveryNextHolds(s: State, rest: seq<(TabId, Url)>, t: TabId)
    requires TabOk(s, t) && (s.recovery.Reading? || s.recovery.Reclaiming?)
    requires t in s.open && Awaits(s, t) ==> t in s.owned || t in s.orphans || exists x :: x in rest && x.0 == t
    ensures TabOk(RecoveryNext(s, rest), t)
  {
    if rest == [] {
      DutiesKept(s, SaveRecovery(s), 0, s.made[t], t);
    } else {
      var s' := ReclaimNext(s, rest);
      DutiesKept(s, s', 0, s.made[t], t);
      assert forall x :: x in rest ==> x == rest[0] || x in rest[1..];
    }
  }

  /** A recorded tab that is taken over is owned now or waits for its turn. */
  lemma TakenAwaits(s: State, order: seq<TabId>, t: TabId)
    requires s.recovery.Reading? && Lists(order, s.store.Keys) && t in Taken(s.store, Entries(s.store, FirstRecorded(order)))
    ensures t in StartRecovery(s, order).owned || Awaits(StartRecovery(s, order), t)
  {
    var taken := Entries(s.store, FirstRecorded(order));
    assert (t, s.store[t]) in taken;
    assert taken[0] == (t, s.store[t]) || (t, s.store[t]) in taken[1..];
  }

  lemma StartRecoveryHolds(s: State, order: seq<TabId>, t: TabId)
    requires WorkerOk(s) && s.recovery.Reading? && Lists(order, s.store.Keys) && TabOk(s, t)
    ensures TabOk(StartRecovery(s, order), t)
  {
    assert s.record == map[];
    hide WorkerOk;
    DutiesKept(s, StartRecovery(s, order), 0, s.made[t], t);
    if t in Taken(s.store, Entries(s.store, FirstRecorded(order))) {
      TakenAwaits(s, order, t);
    }
  }

  lemma RecoveryStepHolds(s: State, r: RecoveryEvent, t: TabId)
    requires WorkerOk(s) && RecoveryEnabled(s, r) && TabOk(s, t)
    ensures TabOk(RecoveryStep(s, r), t)
  {
    match r
    case Reads(order) => StartRecoveryHolds(s, order, t);
    case ReadFails => DutiesKept(s, RecoveryStep(s, r), 0, s.made[t], t);
    case RecoveryRemoved =>
      ForgetHolds(s, s.recovery.current, true, t);
      RecoveryNextHolds(Forget(s, s.recovery.current, true), s.recovery.rest, t);
    case RecoveryRemoveRejected => DutiesKept(s, RecoveryStep(s, r), 0, s.made[t], t);
    case RecoveryProbed(found) =>
      ForgetHolds(s, s.recovery.current, !found, t);
      RecoveryNextHolds(Forget(s, s.recovery.current, !found), s.recovery.rest, t);
    case Saved => DutiesKept(s, RecoveryStep(s, r), 0, s.made[t], t);
  }

  lemma BrowserStepHolds(s: State, b: BrowserEvent, t: TabId)
    requires WorkerOk(s) && BrowserEnabled(s, b)
    requires TabOk(s, t) || (b.AbandonedCreate? && t == b.tab)
    ensures TabOk(BrowserStep(s, b), t)
  {
    DutiesKept(s, BrowserStep(s, b), 0, BrowserStep(s, b).made[t], t);
  }

  lemma StartWriteHolds(s: State, t: TabId)
    requires TabOk(s, t)
    ensures TabOk(StartWrite(s), t)
  {
    DutiesKept(s, StartWrite(s), 0, s.made[t], t);
  }

  lemma SettleWriteHolds(s: State, ok: bool, t: TabId)
    requires WorkerOk(s) && TabOk(s, t) && s.chain.inflight.Snapshot?
    ensures TabOk(SettleWrite(s, ok), t)
  {
    DutiesKept(s, SettleWrite(s, ok), 0, s.made[t], t);
  }

  lemma OpenPortHolds(s: State, p: PortId, t: TabId)
    requires WorkerOk(s) && TabOk(s, t) && p !in s.createCalls
    ensures TabOk(OpenPort(s, p), t)
  {
    DutiesKept(s, OpenPort(s, p), 0, s.made[t], t);
  }

  lemma RestartHolds(s: State, applied: bool, t: TabId)
    requires WorkerOk(s) && TabOk(s, t)
    ensures TabOk(Restart(s, Surviving(s, applied)), t)
  {
  }

  lemma TabOkStep(s: State, e: Event, t: TabId)
    requires WorkerOk(s) && Enabled(s, e) && TabOk(s, t)
    ensures TabOk(Next(s, e), t)
  {
    match e
    case Browser(b) => BrowserStepHolds(s, b, t);
    case Kill(applied) => RestartHolds(s, applied, t);
    case Recover(r) => RecoveryStepHolds(s, r, t);
    case Handler(c, h) => HandlerStepHolds(s, c, h, t);
    case _ => SmallStepHolds(s, e, t);
  }

  lemma SmallStepHolds(s: State, e: Event, t: TabId)
    requires WorkerOk(s) && Enabled(s, e) && TabOk(s, t)
    requires e.Connect? || e.Message? || e.Disconnect? || e.WriteStarts? || e.WriteSettles?
    ensures TabOk(Next(s, e), t)
  {
    match e
    case Connect(p) => OpenPortHolds(s, p, t);
    case Message(c, p, request) => ResumeHolds(s, c, Accepted(p, request), t);
    case Disconnect(c, p) => BeginCleanupHolds(s, c, p, false, t);
    case WriteStarts => StartWriteHolds(s, t);
    case WriteSettles(ok) => SettleWriteHolds(s, ok, t);
  }

  lemma NewTabHolds(s: State, e: Event, t: TabId)
    requires WorkerOk(s) && Enabled(s, e) && Makes(e, t)
    ensures TabOk(Next(s, e), t)
  {
    match e
    case Browser(b) => BrowserStepHolds(s, b, t);
    case Handler(c, h) => HandlerStepHolds(s, c, h, t);
  }

  /******* The record follows `owned` *******/

  /** What the storage will hold once the chain has drained, if nothing more is appended. */
  function Latest(s: State): map<TabId, Url> {
    if s.chain.inflight.NoWrite? then
      if s.chain.settled < s.chain.issued then s.owned else s.store
    else
      if s.chain.settled + 1 < s.chain.issued then s.owned else s.chain.inflight.entries
  }

  ghost predicate Owes(s: State) {
    s.recovery.Reading? || s.recovery.Reclaiming? || exists c :: c in s.conts && OwesWrite(s.conts[c])
  }

  ghost predicate NoStorageFailure(s: State) {
    s.chain.failed == {} && !s.recovery.Failed?
  }

  ghost predicate RecordOk(s: State) {
    NoStorageFailure(s) && !Owes(s) ==> Latest(s) == s.owned
  }

  lemma FollowedOk(s: State, c: ContId, s': State)
    requires RecordOk(s) && ChainOk(s.recovery, s.chain) && RecordFollows(s, c, s')
    requires c in s.conts && OwesWrite(s.conts[c]) ==>
               s'.chain == Longer(s.chain) || (c in s'.conts && OwesWrite(s'.conts[c]))
    ensures RecordOk(s')
  {
    if d :| d in s.conts && OwesWrite(s.conts[d]) && d != c {
      assert d in s'.conts && OwesWrite(s'.conts[d]);
    }
  }

  lemma HandlerRecordOk(s: State, c: ContId, h: HandlerEvent)
    requires WorkerOk(s) && RecordOk(s) && c in s.conts && HandlerEnabled(s, s.conts[c], h)
    ensures RecordOk(HandlerStep(s, c, s.conts[c], h))
  {
    var k := s.conts[c];
    assert ContOk(s, k);
    match h
    case Proceeds(order) => FollowedOk(s, c, Proceed(s, c, k, order));
    case Removed => if !k.Retracting? { FollowedOk(s, c, AfterRemove(s, c, k, true)); }
    case Probed(found) => if !k.Retracting? { FollowedOk(s, c, AfterRemove(s, c, k, !found)); }
    case _ => FollowedOk(s, c, HandlerStep(s, c, k, h));
  }

  /** The same handlers owe a write. */
  lemma SameDebts(s: State, s': State)
    requires s'.conts == s.conts && s'.recovery == s.recovery
    ensures Owes(s') <==> Owes(s)
  {
  }

  lemma RecoveryNextRecordOk(s: State, rest: seq<(TabId, Url)>)
    requires ChainOk(s.recovery, s.chain) && (s.recovery.Reading? || s.recovery.Reclaiming?)
    ensures RecordOk(RecoveryNext(s, rest))
  {
    if rest != [] {
      assert Owes(ReclaimNext(s, rest));
    }
  }

  /** Taking over a record is a step of recovery, apart from the history. */
  lemma StartRecoveryRecordOk(s: State, order: seq<TabId>)
    requires ChainOk(s.recovery, s.chain) && s.recovery.Reading? && (forall t :: t in order ==> t in s.store)
    ensures RecordOk(StartRecovery(s, order))
  {
    var taken := Entries(s.store, FirstRecorded(order));
    var s1, s2 := RecoveryNext(s, taken), StartRecovery(s, order);
    RecoveryNextRecordOk(s, taken);
    hide RecoveryNext, Entries, FirstRecorded;
    assert s2 == s1.(record := s2.record, orphans := s2.orphans);
    SameDebts(s1, s2);
  }

  lemma SavedRecordOk(s: State)
    requires RecordOk(s) && RecoveryEnabled(s, Saved)
    ensures RecordOk(RecoveryStep(s, Saved))
  {
    assert RecoveryStep(s, Saved).conts == s.conts;
  }

  lemma RecoveryRecordOk(s: State, r: RecoveryEvent)
    requires ChainOk(s.recovery, s.chain) && RecordOk(s) && RecoveryEnabled(s, r)
    ensures RecordOk(RecoveryStep(s, r))
  {
    hide RecordOk, Owes;
    match r
    case Reads(order) => StartRecoveryRecordOk(s, order);
    case ReadFails => FailedRecordOk(s);
    case RecoveryRemoved => RecoveryNextRecordOk(Forget(s, s.recovery.current, true), s.recovery.rest);
    case RecoveryRemoveRejected => ProbesRecordOk(s);
    case RecoveryProbed(found) => RecoveryNextRecordOk(Forget(s, s.recovery.current, !found), s.recovery.rest);
    case Saved => SavedRecordOk(s);
  }

  lemma FailedRecordOk(s: State)
    requires s.recovery.Reading?
    ensures RecordOk(s.(recovery := Failed))
  {
  }

  lemma ProbesRecordOk(s: State)
    requires s.recovery.Reclaiming?
    ensures RecordOk(s.(recovery := s.recovery.(probing := true)))
  {
    assert Owes(s.(recovery := s.recovery.(probing := true)));
  }

  /** A step that leaves the record, the chain and `owned` alone, and ends no duty to write. */
  lemma UnrecordedOk(s: State, s': State)
    requires RecordOk(s) && s'.store == s.store && s'.chain == s.chain && s'.owned == s.owned && s'.recovery == s.recovery
    requires forall c :: c in s.conts && OwesWrite(s.conts[c]) ==> c in s'.conts && s'.conts[c] == s.conts[c]
    ensures RecordOk(s')
  {
    if c :| c in s.conts && OwesWrite(s.conts[c]) { assert OwesWrite(s'.conts[c]); }
  }

  lemma StartWriteRecordOk(s: State)
    requires RecordOk(s) && s.chain.inflight.NoWrite? && s.chain.settled < s.chain.issued
    ensures RecordOk(StartWrite(s))
  {
    SameDebts(s, StartWrite(s));
    hide Owes;
  }

  lemma SettleWriteRecordOk(s: State, ok: bool)
    requires RecordOk(s) && ChainOk(s.recovery, s.chain) && s.chain.inflight.Snapshot?
    ensures RecordOk(SettleWrite(s, ok))
  {
    SameDebts(s, SettleWrite(s, ok));
    hide Owes;
  }

  lemma KillRecordOk(s: State, applied: bool)
    requires Enabled(s, Kill(applied))
    ensures RecordOk(Next(s, Kill(applied)))
  {
    assert Owes(Restart(s, Surviving(s, applied)));
  }

  lemma BrowserRecordOk(s: State, b: BrowserEvent)
    requires RecordOk(s) && BrowserEnabled(s, b)
    ensures RecordOk(BrowserStep(s, b))
  {
    UnrecordedOk(s, BrowserStep(s, b));
  }

  lemma RecordOkStep(s: State, e: Event)
    requires WorkerOk(s) && RecordOk(s) && Enabled(s, e)
    ensures RecordOk(Next(s, e))
  {
    assert ChainOk(s.recovery, s.chain);
    hide WorkerOk, RecordOk, ChainOk;
    match e
    case Browser(b) => BrowserRecordOk(s, b);
    case Recover(r) => RecoveryRecordOk(s, r);
    case Handler(c, h) => HandlerRecordOk(s, c, h);
    case Kill(applied) => KillRecordOk(s, applied);
    case WriteStarts => StartWriteRecordOk(s);
    case WriteSettles(ok) => SettleWriteRecordOk(s, ok);
    case _ => MessageRecordOk(s, e);
  }

  lemma MessageRecordOk(s: State, e: Event)
    requires RecordOk(s) && Enabled(s, e) && (e.Connect? || e.Message? || e.Disconnect?)
    ensures RecordOk(Next(s, e))
  {
    match e
    case Connect(p) => UnrecordedOk(s, OpenPort(s, p));
    case Message(c, p, request) => UnrecordedOk(s, Resume(s, c, Accepted(p, request)));
    case Disconnect(c, p) => UnrecordedOk(s, BeginCleanup(s, c, p, false));
  }

  /******* Every run *******/

  ghost predicate Inv(s: State) {
    WorkerOk(s) && (forall t :: t in s.made ==> TabOk(s, t)) && RecordOk(s)
  }

  lemma InvStep(s: State, e: Event)
    requires Inv(s) && Enabled(s, e)
    ensures Inv(Next(s, e))
  {
    WorkerOkStep(s, e);
    RecordOkStep(s, e);
    forall t | t in Next(s, e).made ensures TabOk(Next(s, e), t) {
      if t in s.made { TabOkStep(s, e, t); } else { NewTabHolds(s, e, t); }
    }
  }

  lemma {:induction false} RunInv(states: seq<State>, events: seq<Event>, i: nat)
    requires IsRun(states, events) && i < |states|
    ensures Inv(states[i])
  {
    if i > 0 {
      RunInv(states, events, i - 1);
      InvStep(states[i - 1], events[i - 1]);
    }
  }

  /** In every interleaving, an open tab of ours is owned, being created, in the record, or was orphaned by a kill. */
  lemma OpenTabsAreTracked(states: seq<State>, events: seq<Event>, i: nat, t: TabId)
    requires IsRun(states, events) && i < |states|
    requires t in states[i].made && t in states[i].open && SafeInteger(t)
    ensures Tracked(states[i], t)
  {
    RunInv(states, events, i);
  }

  /** Only tabs the browser opened for us are ever removed or recorded, and only for the two capture pages. */
  lemma RemovesOnlyOwnTabs(states: seq<State>, events: seq<Event>, i: nat)
    requires IsRun(states, events) && i < |states|
    ensures forall t :: t in states[i].removeCalls ==> t in states[i].made
    ensures forall t :: t in states[i].owned ==> t in states[i].made && states[i].owned[t] in URLS
    ensures forall t :: t in states[i].store ==> t in states[i].made && states[i].store[t] in URLS
  {
    RunInv(states, events, i);
  }

  lemma AtMostThreeCreates(states: seq<State>, events: seq<Event>, i: nat, p: PortId)
    requires IsRun(states, events) && i < |states| && p in states[i].createCalls
    ensures states[i].createCalls[p] <= 3
  {
    RunInv(states, events, i);
  }

  /** A closed port with no handler left has closed every tab it made, unless a removal has failed. */
  lemma DrainedPortLeavesNothing(states: seq<State>, events: seq<Event>, i: nat, p: PortId, t: TabId)
    requires IsRun(states, events) && i < |states|
    requires p in states[i].ports && states[i].ports[p].closed
    requires forall c :: c in states[i].conts ==> states[i].conts[c].port != p
    requires IsMade(states[i], p, t) && SafeInteger(t) && t !in states[i].failedRemovals
    ensures t !in states[i].open
  {
    RunInv(states, events, i);
    var s := states[i];
    assert TabOk(s, t);
    forall c | c in s.conts
      ensures !Creates(s.conts[c], t) && !Withdraws(s.conts[c], t) && !Cleans(s.conts[c], p, t)
    {
      assert ContOk(s, s.conts[c]);
    }
  }

  /** A drained chain has recorded exactly what is owned, although each write takes its snapshot late. */
  lemma DrainedRecordIsOwned(states: seq<State>, events: seq<Event>, i: nat)
    requires IsRun(states, events) && i < |states|
    requires states[i].chain.inflight.NoWrite? && states[i].chain.settled == states[i].chain.issued
    requires NoStorageFailure(states[i]) && !Owes(states[i])
    ensures states[i].store == states[i].owned
  {
    RunInv(states, events, i);
  }

  /** A restarted worker takes over the first 30 well-formed entries of the record... */
  lemma RecoveryTakesRecord(s: State, order: seq<TabId>, t: TabId)
    requires Enabled(s, Recover(Reads(order)))
    ensures t in Next(s, Recover(Reads(order))).record <==> t in FirstRecorded(order) && Admissible(t, s.store[t])
  {
    var taken := Entries(s.store, FirstRecorded(order));
    assert Next(s, Recover(Reads(order))).record == Taken(s.store, taken);
  }

  /** ...and each of them is closed or owned again before any tab is asked for. */
  lemma RecordSettledBeforeCreates(states: seq<State>, events: seq<Event>, i: nat, p: PortId, t: TabId)
    requires IsRun(states, events) && i < |states|
    requires p in states[i].ports && states[i].ports[p].created > 0
    requires t in states[i].record && t in states[i].open
    ensures t in states[i].owned
  {
    RunInv(states, events, i);
    assert PortOk(states[i], p) && TabOk(states[i], t);
  }

  /******* When nothing is lost *******/

  ghost predicate NothingLost(s: State) {
    s.abandonedCreates == 0 && forall t :: t in s.made ==> t !in s.orphans && SafeInteger(t) && t >= 0
  }

  /** The worker knows about tab t, or its record does. */
  ghost predicate Kept(s: State, t: TabId) {
    t in s.owned || InCreation(s, t) || Awaits(s, t)
  }

  /** Every open tab of ours is known. */
  ghost predicate AllKept(s: State) {
    forall t :: t in s.made && t in s.open ==> Kept(s, t)
  }

  /** The storage that survives a kill holds every open tab that is owned or in creation. */
  ghost predicate SurvivorsComplete(s: State, applied: bool) {
    forall t :: t in s.open && (t in s.owned || InCreation(s, t)) ==> t in Surviving(s, applied)
  }

  /** ...and no request to create a tab is on its way. */
  ghost predicate KillKeeps(s: State, applied: bool) {
    SurvivorsComplete(s, applied) && forall c :: c in s.conts ==> !s.conts[c].Creating?
  }

  /** Every open tab in the record is among the entries that recovery looks at. */
  ghost predicate ReadKeeps(s: State, order: seq<TabId>) {
    forall t :: t in s.open && t in s.store ==> t in FirstRecorded(order)
  }

  /** A kill finds everything in the storage, recovery looks at every open tab, and the browser hands out proper ids. */
  ghost predicate Careful(s: State, e: Event) {
    && (e.Kill? ==> KillKeeps(s, e.applied))
    && (e.Recover? && e.r.Reads? ==> ReadKeeps(s, e.r.order))
    && (forall t :: Makes(e, t) ==> SafeInteger(t) && t >= 0)
  }

  /** Nothing is on its way: all writes are settled, no create is pending and no handler owes a write. */
  ghost predicate Quiescent(s: State) {
    && NoStorageFailure(s) && s.recovery.Ready? && s.chain.inflight.NoWrite? && s.chain.settled == s.chain.issued
    && forall c :: c in s.conts ==> !OwesWrite(s.conts[c]) && !s.conts[c].Creating? && !s.conts[c].Created?
  }

  /** At rest and during recovery a kill may come at any time. */
  lemma RestIsCareful(s: State, applied: bool)
    requires Inv(s) && (Quiescent(s) || !s.recovery.Ready?)
    ensures KillKeeps(s, applied)
  {
    forall c | c in s.conts ensures !s.conts[c].Creating? && !s.conts[c].Created? {
      assert ContOk(s, s.conts[c]);
    }
    if Quiescent(s) {
      assert s.store == s.owned;
    }
  }

  /** A record of at most 30 entries is read completely. */
  lemma ShortRecordIsCareful(s: State, order: seq<TabId>)
    requires RecoveryEnabled(s, Reads(order)) && |order| <= MAX_RECOVERED
    ensures ReadKeeps(s, order)
  {
  }

  /** What a worker still awaits is in the storage whatever becomes of a write in flight. */
  lemma AwaitedSurvives(s: State, applied: bool, t: TabId)
    requires WorkerOk(s) && Awaits(s, t)
    ensures t in Surviving(s, applied)
  {
  }

  /** The open tabs of ours that a kill loses are exactly the owned ones and those in creation which the storage lacks. */
  lemma KillLosesExactly(s: State, applied: bool, t: TabId)
    requires Inv(s) && NothingLost(s) && t in s.made && t in s.open
    ensures Kept(Next(s, Kill(applied)), t) <==> (t in s.owned || InCreation(s, t) ==> t in Surviving(s, applied))
    ensures t in Next(s, Kill(applied)).orphans <==> t !in Surviving(s, applied)
  {
    assert TabOk(s, t) && Tracked(s, t);
    if Awaits(s, t) {
      AwaitedSurvives(s, applied, t);
    }
  }

  /** After a kill each open tab of ours is still known if and only if the storage holds all owned or in creation. */
  lemma KillKeepsOpenTabsIff(s: State, applied: bool)
    requires Inv(s) && NothingLost(s)
    ensures AllKept(Next(s, Kill(applied))) <==> SurvivorsComplete(s, applied)
  {
    var s' := Next(s, Kill(applied));
    forall t | t in s.made && t in s.open
      ensures Kept(s', t) <==> (t in s.owned || InCreation(s, t) ==> t in Surviving(s, applied))
    {
      KillLosesExactly(s, applied, t);
    }
    OwnedIsMade(s);
    hide Inv, InCreation, Surviving, Kept, NothingLost;
    assert s'.made == s.made && s'.open == s.open;
  }

  lemma OwnedIsMade(s: State)
    requires WorkerOk(s)
    ensures forall t :: t in s.owned || InCreation(s, t) ==> t in s.made
  {
    forall t | InCreation(s, t) ensures t in s.made {
      var c :| c in s.conts && Creates(s.conts[c], t);
      assert ContOk(s, s.conts[c]);
    }
  }

  lemma NoneCreating(s: State)
    ensures |set c | c in s.conts && s.conts[c].Creating?| == 0 <==> forall c :: c in s.conts ==> !s.conts[c].Creating?
  {
    var pending := set c | c in s.conts && s.conts[c].Creating?;
    if c :| c in s.conts && s.conts[c].Creating? {
      assert c in pending;
    } else {
      forall c ensures c !in pending {
      }
      assert pending == {};
    }
  }

  lemma CarefulKill(s: State, applied: bool)
    requires Inv(s) && NothingLost(s)
    ensures NothingLost(Restart(s, Surviving(s, applied))) <==> KillKeeps(s, applied)
  {
    var s' := Restart(s, Surviving(s, applied));
    NoneCreating(s);
    OwnedIsMade(s);
    forall t | t in s.made && t in s.open
      ensures t in s'.orphans <==> t !in Surviving(s, applied)
      ensures t in s'.orphans ==> t in s.owned || InCreation(s, t)
    {
      KillLosesExactly(s, applied, t);
    }
    hide Inv, InCreation, Surviving;
    assert SurvivorsComplete(s, applied) <==> forall t :: t in s.made ==> t !in s'.orphans;
  }

  lemma CarefulReads(s: State, order: seq<TabId>)
    requires Inv(s) && NothingLost(s) && RecoveryEnabled(s, Reads(order))
    ensures NothingLost(RecoveryStep(s, Reads(order))) <==> ReadKeeps(s, order)
  {
    var s' := RecoveryStep(s, Reads(order));
    RecordIsFirst(s, order);
    ReadOrphans(s, order);
    assert forall t :: t in s.store ==> t in s.made;
    hide Inv, FirstRecorded, RecoveryStep, StartRecovery;
    assert ReadKeeps(s, order) <==> forall t :: t in s.made ==> t !in s'.orphans;
  }

  lemma RecordIsFirst(s: State, order: seq<TabId>)
    requires WorkerOk(s) && NothingLost(s) && RecoveryEnabled(s, Reads(order))
    ensures forall t :: t in s.store ==>
              (t in RecoveryStep(s, Reads(order)).record <==> t in FirstRecorded(order))
  {
    forall t | t in s.store ensures t in RecoveryStep(s, Reads(order)).record <==> t in FirstRecorded(order) {
      RecoveryTakesRecord(s, order, t);
      hide RecoveryStep, FirstRecorded;
      assert t in s.made && s.store[t] in URLS;
    }
  }

  lemma ReadOrphans(s: State, order: seq<TabId>)
    requires RecoveryEnabled(s, Reads(order))
    ensures var s' := RecoveryStep(s, Reads(order));
            forall t :: t !in s.orphans ==> (t in s'.orphans <==> t in s.open && t in s.store && t !in s'.record)
  {
    var taken := Entries(s.store, FirstRecorded(order));
    hide Entries, FirstRecorded, Admissible, Taken, RecoveryNext;
  }

  /** Every other step makes the tab that it makes, and loses none. */
  lemma OtherStep(s: State, e: Event)
    requires Enabled(s, e) && s.abandonedCreates == 0 && !e.Kill? && !(e.Recover? && e.r.Reads?)
    ensures Next(s, e).orphans == s.orphans && Next(s, e).abandonedCreates == 0
  {
    hide HandlerStep, BrowserStep, RecoveryStep;
  }

  lemma MakesNew(s: State, e: Event)
    requires WorkerOk(s) && Enabled(s, e)
    ensures forall t :: Makes(e, t) ==> t !in s.made && t !in s.orphans
  {
  }

  /** One event keeps everything if and only if it is careful. */
  lemma CarefulStep(s: State, e: Event)
    requires Inv(s) && NothingLost(s) && Enabled(s, e)
    ensures NothingLost(Next(s, e)) <==> Careful(s, e)
  {
    if e.Kill? {
      CarefulKill(s, e.applied);
    } else if e.Recover? && e.r.Reads? {
      CarefulReads(s, e.r.order);
    } else {
      OtherStep(s, e);
      MakesNew(s, e);
      hide Inv, Next, Enabled, Makes;
    }
  }

  lemma InitLosesNothing(s: State)
    requires Init(s)
    ensures NothingLost(s)
  {
  }

  /** Nothing is lost all along a run if and only if every event is careful. */
  lemma {:induction false} NothingLostIff(states: seq<State>, events: seq<Event>, i: nat)
    requires IsRun(states, events) && i < |states|
    ensures (forall k :: 0 <= k <= i ==> NothingLost(states[k]))
       <==> (forall j :: 0 <= j < i ==> Careful(states[j], events[j]))
  {
    hide Inv, NothingLost, Careful, Next, Enabled;
    if i == 0 {
      InitLosesNothing(states[0]);
    } else {
      NothingLostIff(states, events, i - 1);
      RunInv(states, events, i - 1);
      if NothingLost(states[i - 1]) {
        CarefulStep(states[i - 1], events[i - 1]);
        assert states[i] == Next(states[i - 1], events[i - 1]);
      }
    }
  }

  /** On careful runs every open tab of ours is owned, being created, or in the record that recovery reads. */
  lemma CarefulRunsLoseNothing(states: seq<State>, events: seq<Event>, i: nat, t: TabId)
    requires IsRun(states, events) && i < |states|
    requires forall j :: 0 <= j < i ==> Careful(states[j], events[j])
    requires t in states[i].made && t in states[i].open
    ensures Kept(states[i], t)
  {
    NothingLostIff(states, events, i);
    RunInv(states, events, i);
    assert NothingLost(states[i]) && TabOk(states[i], t);
  }

  ghost predicate EndsIn(states: seq<State>, events: seq<Event>, s: State) {
    IsRun(states, events) && states[|events|] == s
  }

  lemma Extend(states: seq<State>, events: seq<Event>, s: State, e: Event) returns (states': seq<State>, events': seq<Event>)
    requires EndsIn(states, events, s) && Enabled(s, e)
    ensures EndsIn(states', events', Next(s, e)) && states'[0] == states[0]
  {
    states', events' := states + [Next(s, e)], events + [e];
  }

  lemma ReadEmpty(s0: State) returns (states: seq<State>, events: seq<Event>)
    requires Init(s0)
    ensures EndsIn(states, events, s0.(chain := Chain(1, 0, NoWrite, {}), recovery := Saving(1))) && states[0] == s0
  {
    states, events := [s0], [];
    assert Entries(s0.store, FirstRecorded([])) == [];
    states, events := Extend(states, events, s0, Recover(Reads([])));
  }

  /** A fresh worker with an empty record becomes ready. */
  lemma StartUp(s0: State) returns (states: seq<State>, events: seq<Event>, s: State)
    requires Init(s0)
    ensures EndsIn(states, events, s) && states[0] == s0
    ensures s == s0.(chain := Chain(1, 1, NoWrite, {}), recovery := Ready)
  {
    hide IsRun;
    var s1 := s0.(chain := Chain(1, 0, NoWrite, {}), recovery := Saving(1));
    states, events := ReadEmpty(s0);
    states, events := Extend(states, events, s1, WriteStarts);
    var s2 := StartWrite(s1);
    states, events := Extend(states, events, s2, WriteSettles(true));
    var s3 := SettleWrite(s2, true);
    states, events := Extend(states, events, s3, Recover(Saved));
    s := Next(s3, Recover(Saved));
  }

  /** A port asks for a tab and the browser creates it. */
  lemma CreateOne(s0: State, t: TabId) returns (states: seq<State>, events: seq<Event>, s: State)
    requires Init(s0) && t !in s0.seen
    ensures EndsIn(states, events, s) && states[0] == s0
    ensures s.conts.Keys == {1} && s.conts[1] == Created(1, MAIN_URL, t)
    ensures t in s.open && t in s.made && s.store == map[] && s.chain.inflight.NoWrite?
  {
    var ready;
    states, events, ready := StartUp(s0);
    states, events := Extend(states, events, ready, Connect(1));
    var s1 := OpenPort(ready, 1);
    var request := Create(MAIN_URL, 0);
    states, events := Extend(states, events, s1, Message(1, 1, request));
    var s2 := Resume(s1, 1, Accepted(1, request));
    states, events := Extend(states, events, s2, Handler(1, Proceeds([])));
    var s3 := BeginCreate(s2, 1, 1, MAIN_URL);
    assert Next(s2, Handler(1, Proceeds([]))) == s3;
    states, events := Extend(states, events, s3, Handler(1, BrowserCreates(t)));
    s := Next(s3, Handler(1, BrowserCreates(t)));
  }

  /** Without that care a tab can be lost: killed between the creation of a tab and the write of its record. */
  lemma KillCanLoseATab(s0: State, t: TabId) returns (states: seq<State>, events: seq<Event>, s: State)
    requires Init(s0) && t !in s0.seen
    ensures EndsIn(states, events, s) && states[0] == s0
    ensures t in s.made && t in s.open && !Kept(s, t)
  {
    var before;
    states, events, before := CreateOne(s0, t);
    states, events := Extend(states, events, before, Kill(false));
    s := Restart(before, Surviving(before, false));
  }
}
