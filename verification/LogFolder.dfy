/**
  The log folder with its tees as an object that is updated in place: the search for a free archive name,
  the deletion of old archives, rollover and write, each proved against the step it makes in `LogRotation`.
*/
module LogFolder {

  import opened LogRotation

  /** The names that are left while those in `names` have not been looked at. */
  ghost function Left(s: State, names: set<Name>): map<Name, File> {
    map n | n in s.dir && (n in names || !Stale(s, n)) :: s.dir[n]
  }

  lemma LeftEnds(s: State)
    ensures Left(s, s.dir.Keys) == s.dir
    ensures Prune(s) == s.(dir := Left(s, {}), pruned := Prune(s).pruned)
  {
    assert Prune(s).dir == Left(s, {});
  }

  lemma LeftNext(s: State, names: set<Name>, n: Name)
    requires n in names && names <= s.dir.Keys
    ensures Left(s, names - {n}) == if Stale(s, n) then Left(s, names) - {n} else Left(s, names)
  {
  }

  class Folder {
    var today: Day
    const days: int
    var dir: map<Name, File>
    var text: map<File, seq<Chunk>>
    var mtime: map<File, Day>
    var tees: map<TeeId, Tee>
    var files: nat
    ghost var pruned: map<File, seq<Chunk>>
    ghost var log: seq<Record>

    ghost function Now(): State
      reads this
    {
      State(today, days, dir, text, mtime, tees, files, pruned, log)
    }

    constructor (today: Day, backupDays: int)
      ensures Init(Now()) && this.today == today && days == backupDays
    {
      this.today := today;
      days := backupDays;
      dir, text, mtime, tees, files, pruned, log := map[], map[], map[], map[], 0, map[], [];
    }

    /** Tries the date alone, then the date with 1, 2, ... until a name is free; some name always is. */
    method FreeName(date: Day) returns (dest: Name)
      ensures dest == Archive(date, FirstFree(dir, date, 0)) && dest !in dir
    {
      var idx := 0;
      while Archive(date, idx) in dir
        invariant FirstFree(dir, date, 0) == FirstFree(dir, date, idx)
        decreases |Taken(dir, date, idx)|
      {
        assert Taken(dir, date, idx) == Taken(dir, date, idx + 1) + {Archive(date, idx)};
        idx := idx + 1;
      }
      dest := Archive(date, idx);
    }

    method ArchiveAs(date: Day)
      requires Live in dir
      modifies this`dir
      ensures Now() == ArchiveLive(old(Now()), date)
    {
      var dest := FreeName(date);
      dir := (dir - {Live})[dest := dir[Live]];
    }

    method Open()
      modifies this
      ensures Now() == OpenLive(old(Now()))
    {
      if Live !in dir {
        dir, text, mtime := dir[Live := files], text[files := []], mtime[files := today];
        files := files + 1;
      }
    }

    /** Looks at every name; only names with a date are ever deleted. */
    method PruneOldLogs()
      modifies this`dir, this`pruned
      ensures Now() == Prune(old(Now()))
      ensures Live in old(dir) ==> Live in dir && dir[Live] == old(dir[Live])
    {
      ghost var s := Now();
      var names := dir.Keys;
      LeftEnds(s);
      hide Left, Prune;
      while names != {}
        invariant names <= s.dir.Keys && dir == Left(s, names)
        decreases |names|
      {
        var n :| n in names;
        LeftNext(s, names, n);
        names := names - {n};
        if days > 0 && n.Archive? && n.date < today - days {
          dir := dir - {n};
        }
      }
      pruned := Prune(s).pruned;
    }

    method ReopenFor(id: TeeId)
      modifies this
      ensures Now() == Reopen(old(Now()), id)
    {
      Open();
      tees := tees[id := Tee(today, dir[Live])];
      PruneOldLogs();
    }

    method MaybeRollover(id: TeeId)
      requires id in tees && Live in dir && tees[id].file in text
      modifies this
      ensures Now() == Rollover(old(Now()), id)
    {
      if tees[id].date != today {
        ArchiveAs(tees[id].date);
        ReopenFor(id);
      }
    }

    method WriteData(id: TeeId, data: string)
      requires FilesOk(Now()) && id in tees
      modifies this
      ensures data == "" ==> Now() == old(Now())
      ensures data != "" ==> Enabled(old(Now()), Write(id, data)) && Now() == Next(old(Now()), Write(id, data))
    {
      if data == "" {
        return;
      }
      MaybeRollover(id);
      var f := tees[id].file;
      text, mtime := text[f := text[f] + [Chunk(today, data)]], mtime[f := today];
      log := log + [Record(f, Chunk(today, data))];
    }

    method StartTeeAs(id: TeeId, oversized: bool)
      requires FilesOk(Now()) && id !in tees
      modifies this
      ensures Now() == Next(old(Now()), Start(id, oversized))
    {
      if Live in dir {
        var f := dir[Live];
        if text[f] != [] && (mtime[f] != today || oversized) {
          ArchiveAs(mtime[f]);
        }
      }
      ReopenFor(id);
    }
  }
}
