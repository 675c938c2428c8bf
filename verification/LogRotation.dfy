/**
  The launcher's daily log: writers share one live file, archive it when the day changes, and delete archives
  that are too old.

  Files are told apart from their names, as an open writer keeps its file when the name moves on. I/O errors
  are not part of this model.
*/
module LogRotation {

  type Day = int
  type File = int
  type TeeId = int

  /** `launcher.log`, or `launcher.log.<date>` (index 0) and `launcher.log.<date>.<index>`. */
  datatype Name = Live | Archive(date: Day, index: nat)

  datatype Chunk = Chunk(day: Day, data: string)

  /** A writer: the day it last rolled over, and the file it has open. */
  datatype Tee = Tee(date: Day, file: File)

  /** One write, and the file it went to. */
  datatype Record = Record(file: File, chunk: Chunk)

  /**
    `files` have been created so far; `pruned` holds what deleted files contained when they were deleted, and
    `log` every write ever made.
  */
  datatype State = State(
    today: Day,
    days: int,
    dir: map<Name, File>,
    text: map<File, seq<Chunk>>,
    mtime: map<File, Day>,
    tees: map<TeeId, Tee>,
    files: nat,
    pruned: map<File, seq<Chunk>>,
    log: seq<Record>)

  /******* Steps *******/

  /** The archive names of a date that are taken, from an index on. */
  function Taken(dir: map<Name, File>, date: Day, from: nat): set<Name> {
    set n | n in dir && n.Archive? && n.date == date && n.index >= from
  }

  function FirstFree(dir: map<Name, File>, date: Day, from: nat): (k: nat)
    ensures k >= from && Archive(date, k) !in dir
    ensures forall j :: from <= j < k ==> Archive(date, j) in dir
    decreases |Taken(dir, date, from)|
  {
    if Archive(date, from) !in dir then from
    else
      assert Taken(dir, date, from) == Taken(dir, date, from + 1) + {Archive(date, from)};
      FirstFree(dir, date, from + 1)
  }

  function ArchiveLive(s: State, date: Day): (r: State)
    requires Live in s.dir
    ensures r.tees == s.tees && r.today == s.today && r.days == s.days && r.files >= s.files
  {
    s.(dir := (s.dir - {Live})[Archive(date, FirstFree(s.dir, date, 0)) := s.dir[Live]])
  }

  function OpenLive(s: State): (r: State)
    ensures r.tees == s.tees && r.today == s.today && r.days == s.days && r.files >= s.files
    ensures Live in r.dir
  {
    if Live in s.dir then s
    else
      s.(dir := s.dir[Live := s.files], text := s.text[s.files := []], mtime := s.mtime[s.files := s.today],
         files := s.files + 1)
  }

  function SetTee(s: State, id: TeeId): (r: State)
    requires Live in s.dir
    ensures r.dir == s.dir && r.today == s.today && r.files == s.files
  {
    s.(tees := s.tees[id := Tee(s.today, s.dir[Live])])
  }

  /** Only names with a date can be stale. */
  predicate Stale(s: State, n: Name) {
    s.days > 0 && n.Archive? && n.date < s.today - s.days
  }

  predicate IsPruned(s: State, f: File) {
    exists n | n in s.dir :: Stale(s, n) && s.dir[n] == f
  }

  function Prune(s: State): (r: State)
    ensures r.tees == s.tees && r.today == s.today && r.days == s.days && r.files >= s.files
    ensures Live in s.dir ==> Live in r.dir && r.dir[Live] == s.dir[Live]
  {
    s.(dir := map n | n in s.dir && !Stale(s, n) :: s.dir[n],
       pruned := map f | f in s.pruned.Keys + s.text.Keys && (f in s.pruned || IsPruned(s, f)) ::
                   if f in s.pruned || f !in s.text then s.pruned[f] else s.text[f])
  }

  /** Opening the live file, taking it and pruning, which a start and a rollover have in common. */
  function Reopen(s: State, id: TeeId): State {
    Prune(SetTee(OpenLive(s), id))
  }

  function Rollover(s: State, id: TeeId): (r: State)
    requires id in s.tees && Live in s.dir && s.tees[id].file in s.text
    ensures id in r.tees && r.tees[id].file in r.text
  {
    if s.tees[id].date == s.today then s
    else Reopen(ArchiveLive(s, s.tees[id].date), id)
  }

  function Append(s: State, id: TeeId, data: string): State
    requires id in s.tees && s.tees[id].file in s.text
  {
    var f, chunk := s.tees[id].file, Chunk(s.today, data);
    s.(text := s.text[f := s.text[f] + [chunk]], mtime := s.mtime[f := s.today], log := s.log + [Record(f, chunk)])
  }

  /** A live file of another day, or one that has grown too large, is archived under its date of last change. */
  predicate MustArchive(s: State, oversized: bool) {
    && Live in s.dir && s.dir[Live] in s.text && s.dir[Live] in s.mtime
    && s.text[s.dir[Live]] != [] && (s.mtime[s.dir[Live]] != s.today || oversized)
  }

  function ArchiveStale(s: State, oversized: bool): (r: State)
    ensures r.tees == s.tees && r.today == s.today && r.days == s.days && r.files >= s.files
  {
    if MustArchive(s, oversized) then ArchiveLive(s, s.mtime[s.dir[Live]]) else s
  }

  function StartTee(s: State, id: TeeId, oversized: bool): State {
    Reopen(ArchiveStale(s, oversized), id)
  }

  datatype Event = Start(id: TeeId, oversized: bool) | Write(id: TeeId, data: string) | Stop | Later(n: nat)

  /** A tee that is writing has the live file in place and its own file open. */
  predicate Enabled(s: State, e: Event) {
    match e
    case Start(id, _) => id !in s.tees
    case Write(id, data) => id in s.tees && data != "" && Live in s.dir && s.tees[id].file in s.text
    case _ => true
  }

  ghost function Next(s: State, e: Event): State
    requires Enabled(s, e)
  {
    match e
    case Start(id, oversized) => StartTee(s, id, oversized)
    case Write(id, data) => Append(Rollover(s, id), id, data)
    case Stop => s.(tees := map[])
    case Later(n) => s.(today := s.today + n)
  }

  predicate Init(s: State) {
    && s.dir == map[] && s.text == map[] && s.mtime == map[] && s.tees == map[] && s.files == 0
    && s.pruned == map[] && s.log == []
  }

  /******* Every file keeps a name until it is pruned *******/

  ghost predicate HasName(s: State, f: File) {
    exists n :: n in s.dir && s.dir[n] == f
  }

  function WrittenTo(log: seq<Record>, f: File): seq<Chunk> {
    if log == [] then []
    else
      var rest, r := WrittenTo(log[..|log| - 1], f), log[|log| - 1];
      if r.file == f then rest + [r.chunk] else rest
  }

  /** Each file holds what was written to it; it has exactly one name, unless it was pruned and has none. */
  ghost predicate FolderOk(s: State) {
    && (forall n :: n in s.dir ==> 0 <= s.dir[n] < s.files)
    && (forall m, n :: m in s.dir && n in s.dir && m != n ==> s.dir[m] != s.dir[n])
    && (forall f :: f in s.text <==> 0 <= f < s.files)
    && (forall f :: f in s.mtime <==> 0 <= f < s.files)
    && (forall f :: f in s.pruned ==> 0 <= f < s.files)
    && (forall f :: 0 <= f < s.files ==> (HasName(s, f) <==> f !in s.pruned))
    && (forall f :: 0 <= f < s.files ==> s.text[f] == WrittenTo(s.log, f))
    && (forall i :: 0 <= i < |s.log| ==> 0 <= s.log[i].file < s.files)
  }

  ghost predicate TeesOk(s: State) {
    && (forall id :: id in s.tees ==> 0 <= s.tees[id].file < s.files && s.tees[id].date <= s.today)
    && (forall id :: id in s.tees ==> Live in s.dir)
  }

  ghost predicate FilesOk(s: State) {
    FolderOk(s) && TeesOk(s)
  }

  lemma ArchiveLiveOk(s: State, date: Day)
    requires FolderOk(s) && Live in s.dir
    ensures FolderOk(ArchiveLive(s, date))
  {
    var s' := ArchiveLive(s, date);
    forall f ensures HasName(s', f) <==> HasName(s, f) {
      ArchiveLiveNames(s, date, f);
    }
  }

  lemma ArchiveLiveNames(s: State, date: Day, f: File)
    requires Live in s.dir
    ensures HasName(ArchiveLive(s, date), f) <==> HasName(s, f)
  {
    var s' := ArchiveLive(s, date);
    var k := Archive(date, FirstFree(s.dir, date, 0));
    if HasName(s, f) {
      var n :| n in s.dir && s.dir[n] == f;
      var n' := if n == Live then k else n;
      assert n' in s'.dir && s'.dir[n'] == f;
    }
    if HasName(s', f) {
      var n :| n in s'.dir && s'.dir[n] == f;
      var n' := if n == k then Live else n;
      assert n' in s.dir && s.dir[n'] == f;
    }
  }

  lemma OpenLiveOk(s: State)
    requires FolderOk(s)
    ensures FolderOk(OpenLive(s))
  {
    if Live !in s.dir {
      forall f ensures HasName(OpenLive(s), f) <==> HasName(s, f) || f == s.files {
        OpenLiveNames(s, f);
      }
      hide HasName;
      NothingWritten(s.log, s.files);
    }
  }

  lemma OpenLiveNames(s: State, f: File)
    requires Live !in s.dir
    ensures HasName(OpenLive(s), f) <==> HasName(s, f) || f == s.files
  {
    var s' := OpenLive(s);
    if HasName(s, f) {
      var n :| n in s.dir && s.dir[n] == f;
      assert s'.dir[n] == f;
    }
    assert s'.dir[Live] == s.files;
  }

  lemma {:induction false} NothingWritten(log: seq<Record>, f: File)
    requires forall i :: 0 <= i < |log| ==> log[i].file != f
    ensures WrittenTo(log, f) == []
  {
    if log != [] {
      NothingWritten(log[..|log| - 1], f);
    }
  }

  lemma PruneNames(s: State, f: File)
    requires FolderOk(s)
    ensures HasName(Prune(s), f) <==> HasName(s, f) && !IsPruned(s, f)
  {
    var s' := Prune(s);
    if HasName(s, f) && !IsPruned(s, f) {
      var n :| n in s.dir && s.dir[n] == f;
      assert n in s'.dir && s'.dir[n] == f;
    }
    if HasName(s', f) {
      var n :| n in s'.dir && s'.dir[n] == f;
      assert n in s.dir && !Stale(s, n);
    }
  }

  lemma PruneOk(s: State)
    requires FolderOk(s)
    ensures FolderOk(Prune(s))
  {
    var s' := Prune(s);
    forall f ensures HasName(s', f) <==> HasName(s, f) && !IsPruned(s, f) {
      PruneNames(s, f);
    }
    forall f | 0 <= f < s'.files ensures HasName(s', f) <==> f !in s'.pruned {
      assert IsPruned(s, f) ==> HasName(s, f);
    }
  }

  lemma SetTeeOk(s: State, id: TeeId)
    requires FolderOk(s) && Live in s.dir
    ensures FolderOk(SetTee(s, id))
  {
    forall f ensures HasName(SetTee(s, id), f) == HasName(s, f) {
    }
  }

  lemma ReopenOk(s: State, id: TeeId)
    requires FolderOk(s)
    ensures FolderOk(Reopen(s, id))
  {
    OpenLiveOk(s);
    SetTeeOk(OpenLive(s), id);
    PruneOk(SetTee(OpenLive(s), id));
  }

  lemma RolloverOk(s: State, id: TeeId)
    requires FilesOk(s) && id in s.tees
    ensures FilesOk(Rollover(s, id)) && id in Rollover(s, id).tees && Rollover(s, id).tees[id].date == s.today
  {
    if s.tees[id].date != s.today {
      var s1 := ArchiveLive(s, s.tees[id].date);
      ArchiveLiveOk(s, s.tees[id].date);
      ReopenOk(s1, id);
    }
  }

  lemma ArchiveStaleOk(s: State, oversized: bool)
    requires FolderOk(s)
    ensures FolderOk(ArchiveStale(s, oversized))
  {
    if MustArchive(s, oversized) {
      ArchiveLiveOk(s, s.mtime[s.dir[Live]]);
    }
  }

  lemma StartTeeOk(s: State, id: TeeId, oversized: bool)
    requires FilesOk(s)
    ensures FilesOk(StartTee(s, id, oversized))
  {
    ArchiveStaleOk(s, oversized);
    ReopenOk(ArchiveStale(s, oversized), id);
  }

  lemma {:induction false} WrittenSnoc(log: seq<Record>, r: Record, f: File)
    ensures WrittenTo(log + [r], f) == if r.file == f then WrittenTo(log, f) + [r.chunk] else WrittenTo(log, f)
  {
    assert (log + [r])[..|log|] == log;
  }

  lemma AppendOk(s: State, id: TeeId, data: string)
    requires FilesOk(s) && id in s.tees
    ensures FilesOk(Append(s, id, data))
  {
    var s' := Append(s, id, data);
    forall f | 0 <= f < s.files ensures s'.text[f] == WrittenTo(s'.log, f) {
      WrittenSnoc(s.log, Record(s.tees[id].file, Chunk(s.today, data)), f);
    }
    forall f ensures HasName(s', f) == HasName(s, f) {
    }
  }

  lemma FilesOkStep(s: State, e: Event)
    requires FilesOk(s) && Enabled(s, e)
    ensures FilesOk(Next(s, e))
  {
    match e
    case Start(id, oversized) => StartTeeOk(s, id, oversized);
    case Write(id, data) =>
      RolloverOk(s, id);
      AppendOk(Rollover(s, id), id, data);
    case _ => assert forall f :: HasName(Next(s, e), f) == HasName(s, f);
  }

  /******* Runs *******/

  ghost predicate Step(s: State, e: Event, s': State) {
    Enabled(s, e) && s' == Next(s, e)
  }

  ghost predicate IsRun(states: seq<State>, events: seq<Event>) {
    && |states| == |events| + 1 && Init(states[0])
    && forall i :: 0 <= i < |events| ==> Step(states[i], events[i], states[i + 1])
  }

  lemma {:induction false} RunFilesOk(states: seq<State>, events: seq<Event>, n: nat)
    requires IsRun(states, events) && n <= |events|
    ensures FilesOk(states[n])
  {
    if n > 0 {
      RunFilesOk(states, events, n - 1);
      assert Step(states[n - 1], events[n - 1], states[n]);
      FilesOkStep(states[n - 1], events[n - 1]);
    }
  }

  /**
    No archive is ever overwritten: in every run each file holds exactly what was written to it, in order,
    and still has a name unless pruning deleted it. And a tee can always write.
  */
  lemma NothingOverwritten(states: seq<State>, events: seq<Event>, n: nat, f: File)
    requires IsRun(states, events) && n <= |events| && 0 <= f < states[n].files
    ensures f in states[n].text && states[n].text[f] == WrittenTo(states[n].log, f)
    ensures HasName(states[n], f) <==> f !in states[n].pruned
    ensures forall id, data :: id in states[n].tees && data != "" ==> Enabled(states[n], Write(id, data))
  {
    RunFilesOk(states, events, n);
  }

  /******* When several tees share the file *******/

  /** The file has a name that pruning leaves alone today. */
  ghost predicate Recent(s: State, f: File) {
    exists n :: n in s.dir && s.dir[n] == f && !Stale(s, n)
  }

  /** A tee that already rolled over today writes to a file that stays, and that holds nothing of older days. */
  ghost predicate TeeOk(s: State, t: Tee) {
    t.date == s.today ==> Recent(s, t.file) && t.file in s.text && t.file in s.mtime && InUse(s, t.file)
  }

  predicate InUse(s: State, f: File)
    requires f in s.text && f in s.mtime
  {
    s.text[f] == [] || s.mtime[f] == s.today
  }

  ghost predicate CurrentOk(s: State) {
    forall id :: id in s.tees ==> TeeOk(s, s.tees[id])
  }

  /** What was deleted has not grown since. */
  ghost predicate PrunedWhole(s: State) {
    forall f :: f in s.pruned && f in s.text ==> s.pruned[f] == s.text[f]
  }

  /** No tee rolls over later than the number of days that archives are kept. */
  predicate Prompt(s: State, e: Event) {
    e.Write? && e.id in s.tees ==>
      s.tees[e.id].date == s.today || !Stale(s, Archive(s.tees[e.id].date, 0))
  }

  lemma ArchiveKeepsRecent(s: State, date: Day, f: File)
    requires Live in s.dir && Recent(s, f) && (s.dir[Live] == f ==> !Stale(s, Archive(date, 0)))
    ensures Recent(ArchiveLive(s, date), f)
  {
    var n :| n in s.dir && s.dir[n] == f && !Stale(s, n);
    var k := Archive(date, FirstFree(s.dir, date, 0));
    var n' := if n == Live then k else n;
    assert n' in ArchiveLive(s, date).dir && ArchiveLive(s, date).dir[n'] == f && !Stale(ArchiveLive(s, date), n');
  }

  lemma ReopenKeepsRecent(s: State, id: TeeId, f: File)
    requires Recent(s, f)
    ensures Recent(Reopen(s, id), f)
  {
    var n :| n in s.dir && s.dir[n] == f && !Stale(s, n);
    assert n in Reopen(s, id).dir && Reopen(s, id).dir[n] == f && !Stale(Reopen(s, id), n);
  }

  /** The reopened tee has the live file, and the others keep what they have. */
  lemma ReopenTeeOk(s: State, id: TeeId, t: Tee)
    requires FolderOk(s) && TeeOk(s, t)
    ensures TeeOk(Reopen(s, id), t)
  {
    if t.date == s.today {
      ReopenKeepsRecent(s, id, t.file);
    }
  }

  lemma ReopenCurrentOk(s: State, id: TeeId)
    requires FolderOk(s) && Live in s.dir ==> s.dir[Live] in s.text && s.dir[Live] in s.mtime && InUse(s, s.dir[Live])
    requires FolderOk(s) && forall i :: i in s.tees && i != id ==> TeeOk(s, s.tees[i])
    ensures CurrentOk(Reopen(s, id))
  {
    var s' := Reopen(s, id);
    forall i | i in s'.tees ensures TeeOk(s', s'.tees[i]) {
      if i == id {
        assert s'.dir[Live] == s'.tees[id].file && !Stale(s', Live);
      } else {
        ReopenTeeOk(s, id, s.tees[i]);
      }
    }
  }

  lemma RolloverCurrentOk(s: State, id: TeeId)
    requires FilesOk(s) && CurrentOk(s) && PrunedWhole(s) && id in s.tees
    requires s.tees[id].date == s.today || !Stale(s, Archive(s.tees[id].date, 0))
    ensures CurrentOk(Rollover(s, id)) && PrunedWhole(Rollover(s, id))
  {
    if s.tees[id].date != s.today {
      var s1 := ArchiveLive(s, s.tees[id].date);
      ArchiveLiveOk(s, s.tees[id].date);
      forall i | i in s.tees && i != id ensures TeeOk(s1, s.tees[i]) {
        if s.tees[i].date == s.today {
          ArchiveKeepsRecent(s, s.tees[id].date, s.tees[i].file);
        }
      }
      ReopenCurrentOk(s1, id);
    }
  }

  lemma ArchiveStaleTeeOk(s: State, oversized: bool, t: Tee)
    requires FolderOk(s) && TeeOk(s, t)
    ensures TeeOk(ArchiveStale(s, oversized), t)
  {
    if t.date == s.today && MustArchive(s, oversized) {
      ArchiveKeepsRecent(s, s.mtime[s.dir[Live]], t.file);
    }
  }

  lemma StartCurrentOk(s: State, id: TeeId, oversized: bool)
    requires FilesOk(s) && CurrentOk(s) && PrunedWhole(s)
    ensures CurrentOk(StartTee(s, id, oversized)) && PrunedWhole(StartTee(s, id, oversized))
  {
    var s1 := ArchiveStale(s, oversized);
    ArchiveStaleOk(s, oversized);
    ArchiveStaleLive(s, oversized);
    forall i | i in s.tees ensures TeeOk(s1, s.tees[i]) {
      ArchiveStaleTeeOk(s, oversized, s.tees[i]);
    }
    ReopenCurrentOk(s1, id);
    StartPrunedWhole(s, id, oversized);
    hide *;
    StartIs(s, id, oversized);
  }

  lemma StartIs(s: State, id: TeeId, oversized: bool)
    ensures StartTee(s, id, oversized) == Reopen(ArchiveStale(s, oversized), id)
  {
  }

  lemma ArchiveStaleLive(s: State, oversized: bool)
    requires FolderOk(s)
    ensures var s1 := ArchiveStale(s, oversized);
            Live in s1.dir ==> s1.dir[Live] in s1.text && s1.dir[Live] in s1.mtime && InUse(s1, s1.dir[Live])
  {
  }

  lemma StartPrunedWhole(s: State, id: TeeId, oversized: bool)
    requires FolderOk(s) && PrunedWhole(s)
    ensures PrunedWhole(StartTee(s, id, oversized))
  {
    ArchiveStaleOk(s, oversized);
    hide HasName, WrittenTo;
  }

  lemma AppendCurrentOk(s: State, id: TeeId, data: string)
    requires FilesOk(s) && CurrentOk(s) && PrunedWhole(s) && id in s.tees && s.tees[id].date == s.today
    ensures CurrentOk(Append(s, id, data)) && PrunedWhole(Append(s, id, data))
    ensures s.tees[id].file !in s.pruned
  {
    var s' := Append(s, id, data);
    assert TeeOk(s, s.tees[id]) && HasName(s, s.tees[id].file);
    forall i | i in s.tees ensures TeeOk(s', s.tees[i]) {
      assert TeeOk(s, s.tees[i]);
      assert Recent(s, s.tees[i].file) ==> Recent(s', s.tees[i].file);
    }
  }

  lemma CurrentOkStep(s: State, e: Event)
    requires FilesOk(s) && CurrentOk(s) && PrunedWhole(s) && Enabled(s, e) && Prompt(s, e)
    ensures CurrentOk(Next(s, e)) && PrunedWhole(Next(s, e))
  {
    match e
    case Start(id, oversized) => StartCurrentOk(s, id, oversized);
    case Write(id, data) =>
      RolloverCurrentOk(s, id);
      RolloverOk(s, id);
      AppendCurrentOk(Rollover(s, id), id, data);
    case Stop =>
    case Later(n) =>
      assert n == 0 ==> Next(s, e) == s;
  }

  /** Every rollover of the run is prompt. */
  ghost predicate PromptRun(states: seq<State>, events: seq<Event>)
    requires |states| == |events| + 1
  {
    forall i :: 0 <= i < |events| ==> Prompt(states[i], events[i])
  }

  lemma {:induction false} RunCurrentOk(states: seq<State>, events: seq<Event>, n: nat)
    requires IsRun(states, events) && PromptRun(states, events) && n <= |events|
    ensures FilesOk(states[n]) && CurrentOk(states[n]) && PrunedWhole(states[n])
  {
    if n > 0 {
      RunCurrentOk(states, events, n - 1);
      assert Step(states[n - 1], events[n - 1], states[n]) && Prompt(states[n - 1], events[n - 1]);
      FilesOkStep(states[n - 1], events[n - 1]);
      CurrentOkStep(states[n - 1], events[n - 1]);
    }
  }

  /**
    While no tee rolls over later than archives are kept, nothing is lost but what pruning deleted: every
    write goes to a file that has a name, and a deleted file holds nothing more than when it was deleted.
  */
  lemma PromptRunsLoseNothing(states: seq<State>, events: seq<Event>, n: nat, id: TeeId, data: string)
    requires IsRun(states, events) && PromptRun(states, events) && n < |events| && events[n] == Write(id, data)
    ensures PrunedWhole(states[n + 1])
    ensures id in states[n + 1].tees && HasName(states[n + 1], states[n + 1].tees[id].file)
  {
    RunCurrentOk(states, events, n + 1);
    RunCurrentOk(states, events, n);
    var s, s' := states[n], states[n + 1];
    assert Step(s, Write(id, data), s') && Prompt(s, Write(id, data));
  }

  /** A rollover pulls the file of another tee away on the same day exactly if it is late and they share the live file. */
  lemma LateRolloverStrands(s: State, id: TeeId, other: TeeId)
    requires FilesOk(s) && CurrentOk(s) && id in s.tees && s.tees[id].date != s.today
    requires other in s.tees && s.tees[other].date == s.today
    ensures HasName(Rollover(s, id), s.tees[other].file)
       <==> s.tees[other].file != s.dir[Live] || !Stale(s, Archive(s.tees[id].date, 0))
  {
    var date, f := s.tees[id].date, s.tees[other].file;
    var s1 := ArchiveLive(s, date);
    assert TeeOk(s, s.tees[other]);
    ArchiveLiveOk(s, date);
    if f != s.dir[Live] || !Stale(s, Archive(date, 0)) {
      ArchiveKeepsRecent(s, date, f);
      ReopenKeepsRecent(s1, id, f);
    } else {
      OpenLiveOk(s1);
      SetTeeOk(OpenLive(s1), id);
      var s2 := SetTee(OpenLive(s1), id);
      var k := Archive(date, FirstFree(s.dir, date, 0));
      assert k in s2.dir && Stale(s2, k) && s2.dir[k] == f;
      PruneNames(s2, f);
    }
  }

  /******* One tee at a time *******/

  ghost predicate OfDay(chunks: seq<Chunk>, day: Day) {
    forall i :: 0 <= i < |chunks| ==> chunks[i].day == day
  }

  ghost predicate LiveOf(s: State, day: Day) {
    Live in s.dir && s.dir[Live] in s.text ==> OfDay(s.text[s.dir[Live]], day)
  }

  ghost predicate OlderThan(chunks: seq<Chunk>, day: Day) {
    forall i :: 0 <= i < |chunks| ==> chunks[i].day < day
  }

  /** Archives hold only their own day. */
  ghost predicate ArchivesPure(s: State) {
    && (forall n :: n in s.dir && n.Archive? && s.dir[n] in s.text ==> OfDay(s.text[s.dir[n]], n.date))
    && (Live in s.dir && s.dir[Live] in s.mtime ==> LiveOf(s, s.mtime[s.dir[Live]]))
  }

  /** What was deleted was too old, and has not grown since. */
  ghost predicate PrunedOld(s: State) {
    forall f :: f in s.pruned && f in s.text ==>
      s.days > 0 && OlderThan(s.pruned[f], s.today - s.days) && s.pruned[f] == s.text[f]
  }

  /** At most one tee, on the live file, which holds its day only. */
  ghost predicate OneTee(s: State) {
    && (forall id, other :: id in s.tees && other in s.tees ==> id == other)
    && (forall id :: id in s.tees && Live in s.dir ==>
          s.tees[id].file == s.dir[Live] && LiveOf(s, s.tees[id].date))
  }

  ghost predicate SingleOk(s: State) {
    ArchivesPure(s) && PrunedOld(s) && OneTee(s)
  }

  lemma ArchivePure(s: State, date: Day)
    requires FolderOk(s) && ArchivesPure(s) && PrunedOld(s) && Live in s.dir && LiveOf(s, date)
    ensures ArchivesPure(ArchiveLive(s, date)) && PrunedOld(ArchiveLive(s, date))
  {
  }

  lemma PrunePure(s: State)
    requires FolderOk(s) && ArchivesPure(s) && PrunedOld(s)
    ensures ArchivesPure(Prune(s)) && PrunedOld(Prune(s))
  {
    var s' := Prune(s);
    forall f | f in s'.pruned && f in s'.text
      ensures s.days > 0 && OlderThan(s'.pruned[f], s.today - s.days) && s'.pruned[f] == s'.text[f]
    {
      if f !in s.pruned {
        var n :| n in s.dir && Stale(s, n) && s.dir[n] == f;
      }
    }
  }

  lemma ReopenPure(s: State, id: TeeId)
    requires FolderOk(s) && ArchivesPure(s) && PrunedOld(s)
    ensures ArchivesPure(Reopen(s, id)) && PrunedOld(Reopen(s, id))
  {
    OpenLiveOk(s);
    SetTeeOk(OpenLive(s), id);
    OpenPure(s, id);
    hide *;
    PrunePure(SetTee(OpenLive(s), id));
    ReopenIs(s, id);
  }

  lemma ReopenIs(s: State, id: TeeId)
    ensures Reopen(s, id) == Prune(SetTee(OpenLive(s), id))
  {
  }

  /** A new live file is empty, and taking it changes no text. */
  lemma OpenPure(s: State, id: TeeId)
    requires FolderOk(s) && ArchivesPure(s) && PrunedOld(s)
    ensures ArchivesPure(SetTee(OpenLive(s), id)) && PrunedOld(SetTee(OpenLive(s), id))
  {
    hide HasName, WrittenTo;
  }

  lemma AppendPure(s: State, id: TeeId, data: string)
    requires FilesOk(s) && SingleOk(s) && id in s.tees && s.tees[id].date == s.today
    ensures SingleOk(Append(s, id, data))
  {
    var s', f := Append(s, id, data), s.tees[id].file;
    assert HasName(s, f);
    assert LiveOf(s, s.today) && s'.text[f] == s.text[f] + [Chunk(s.today, data)];
  }

  lemma RolloverSingle(s: State, id: TeeId)
    requires FilesOk(s) && SingleOk(s) && id in s.tees
    ensures SingleOk(Rollover(s, id))
  {
    if s.tees[id].date != s.today {
      var date := s.tees[id].date;
      var s1 := ArchiveLive(s, date);
      ArchiveLiveOk(s, date);
      ArchivePure(s, date);
      ReopenPure(s1, id);
      ReopenEmpty(s1, id);
    }
  }

  /** A live file that was missing is opened empty. */
  lemma ReopenEmpty(s: State, id: TeeId)
    requires FolderOk(s) && Live !in s.dir && forall i :: i in s.tees ==> i == id
    ensures OneTee(Reopen(s, id))
  {
  }

  lemma StartSingle(s: State, id: TeeId, oversized: bool)
    requires FilesOk(s) && SingleOk(s) && s.tees == map[]
    ensures SingleOk(StartTee(s, id, oversized))
  {
    var s1 := ArchiveStale(s, oversized);
    ArchiveStaleOk(s, oversized);
    if MustArchive(s, oversized) {
      ArchivePure(s, s.mtime[s.dir[Live]]);
    }
    ReopenPure(s1, id);
    if Live !in s1.dir {
      ReopenEmpty(s1, id);
    } else {
      ReopenSame(s1, id);
    }
  }

  /** A live file that is still there, empty or of today, is kept. */
  lemma ReopenSame(s: State, id: TeeId)
    requires FolderOk(s) && Live in s.dir && s.tees == map[] && LiveOf(s, s.today)
    ensures OneTee(Reopen(s, id))
  {
    assert Reopen(s, id).dir[Live] == s.dir[Live] && Reopen(s, id).text == s.text;
  }

  /** A process is started only when the one before has stopped, and has one tee. */
  ghost predicate OneTeeAtATime(s: State, e: Event) {
    e.Start? ==> s.tees == map[]
  }

  lemma LaterSingle(s: State, n: nat)
    requires SingleOk(s)
    ensures SingleOk(s.(today := s.today + n))
  {
    var s' := s.(today := s.today + n);
    forall f | f in s'.pruned && f in s'.text
      ensures s'.days > 0 && OlderThan(s'.pruned[f], s'.today - s'.days) && s'.pruned[f] == s'.text[f]
    {
    }
  }

  lemma SingleStep(s: State, e: Event)
    requires FilesOk(s) && SingleOk(s) && Enabled(s, e) && OneTeeAtATime(s, e)
    ensures SingleOk(Next(s, e))
  {
    match e
    case Start(id, oversized) => StartSingle(s, id, oversized);
    case Write(id, data) =>
      RolloverOk(s, id);
      RolloverSingle(s, id);
      AppendPure(Rollover(s, id), id, data);
    case Stop =>
    case Later(n) => LaterSingle(s, n);
  }

  lemma {:induction false} RunSingleOk(states: seq<State>, events: seq<Event>, n: nat)
    requires IsRun(states, events) && n <= |events|
    requires forall i :: 0 <= i < |events| ==> OneTeeAtATime(states[i], events[i])
    ensures FilesOk(states[n]) && SingleOk(states[n])
  {
    if n > 0 {
      RunSingleOk(states, events, n - 1);
      var s, e := states[n - 1], events[n - 1];
      assert Step(s, e, states[n]) && OneTeeAtATime(s, e);
      FilesOkStep(s, e);
      SingleStep(s, e);
    }
  }

  /**
    With one tee at a time, however long it pauses: every archive holds only the writes of the day in its
    name, and each write is in a file that has a name or was deleted when all of it was older than the limit.
  */
  lemma OneTeeKeepsDays(states: seq<State>, events: seq<Event>, n: nat)
    requires IsRun(states, events) && n <= |events|
    requires forall i :: 0 <= i < |events| ==> OneTeeAtATime(states[i], events[i])
    ensures var s := states[n]; forall m :: m in s.dir && m.Archive? ==>
              s.dir[m] in s.text && OfDay(s.text[s.dir[m]], m.date)
    ensures var s := states[n]; forall f :: 0 <= f < s.files && !HasName(s, f) ==>
              f in s.text && s.days > 0 && OlderThan(s.text[f], s.today - s.days)
  {
    RunSingleOk(states, events, n);
  }
}
