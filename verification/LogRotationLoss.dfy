/**
  What the condition of `PromptRunsLoseNothing` excludes: two tees on one log file, as the launcher sets up for
  stdout and stderr, of which one is silent for longer than archives are kept.
*/
module LogRotationLoss {

  import opened LogRotation

  const EMPTY := State(0, 7, map[], map[], map[], map[], 0, map[], [])

  const A := Chunk(8, "a")
  const B := Chunk(8, "b")
  const C := Chunk(8, "c")

  function OneStarted(): State {
    EMPTY.(dir := map[Live := 0], text := map[0 := []], mtime := map[0 := 0], tees := map[1 := Tee(0, 0)], files := 1)
  }

  function BothStarted(): State {
    OneStarted().(tees := map[1 := Tee(0, 0), 2 := Tee(0, 0)])
  }

  function EightDaysLater(): State {
    BothStarted().(today := 8)
  }

  /** The live file just left by the first tee, before it opens another. */
  function FirstArchived(): State {
    EightDaysLater().(dir := map[Archive(0, 0) := 0])
  }

  function FirstReopened(): State {
    State(8, 7, map[Live := 1], map[0 := [], 1 := []], map[0 := 0, 1 := 8],
          map[1 := Tee(8, 1), 2 := Tee(0, 0)], 2, map[0 := []], [])
  }

  function FirstWrote(): State {
    FirstReopened().(text := map[0 := [], 1 := [A]], log := [Record(1, A)])
  }

  function SecondArchived(): State {
    FirstWrote().(dir := map[Archive(0, 0) := 1])
  }

  function SecondReopened(): State {
    State(8, 7, map[Live := 2], map[0 := [], 1 := [A], 2 := []], map[0 := 0, 1 := 8, 2 := 8],
          map[1 := Tee(8, 1), 2 := Tee(8, 2)], 3, map[0 := [], 1 := [A]], [Record(1, A)])
  }

  function SecondWrote(): State {
    SecondReopened().(text := map[0 := [], 1 := [A], 2 := [B]], log := [Record(1, A), Record(2, B)])
  }

  function FirstWroteAgain(): State {
    SecondWrote().(text := map[0 := [], 1 := [A, C], 2 := [B]], log := [Record(1, A), Record(2, B), Record(1, C)])
  }

  lemma StartBoth()
    ensures Init(EMPTY) && Step(EMPTY, Start(1, false), OneStarted()) && Step(OneStarted(), Start(2, false), BothStarted())
    ensures Step(BothStarted(), Later(8), EightDaysLater())
  {
    var s := SetTee(OpenLive(EMPTY), 1);
    assert s == OneStarted();
    var t := SetTee(OpenLive(OneStarted()), 2);
    assert t == BothStarted();
  }

  /** Pruning the one stale archive next to a new live file. */
  lemma PruneOne(s: State, f: File)
    requires s.days == 7 && s.today == 8 && s.dir.Keys == {Live, Archive(0, 0)} && s.dir[Archive(0, 0)] == f
    requires f in s.text && f !in s.pruned && s.dir[Live] != f && forall g :: g in s.pruned ==> g in s.text
    ensures Prune(s) == s.(dir := map[Live := s.dir[Live]], pruned := s.pruned[f := s.text[f]])
  {
    assert Stale(s, Archive(0, 0)) && Archive(0, 0) in s.dir;
    forall g ensures IsPruned(s, g) <==> g == f {
      if IsPruned(s, g) {
        var n :| n in s.dir && Stale(s, n) && s.dir[n] == g;
        assert n in s.dir.Keys;
      }
    }
    assert Prune(s).dir == map[Live := s.dir[Live]];
    assert Prune(s).pruned == s.pruned[f := s.text[f]];
  }

  /** The state after a write, given field by field. */
  lemma AppendIs(s: State, id: TeeId, data: string, s': State)
    requires id in s.tees && s.tees[id].file in s.text
    requires var f, chunk := s.tees[id].file, Chunk(s.today, data);
             && (forall g :: g in s'.text <==> g in s.text) && s'.text[f] == s.text[f] + [chunk]
             && (forall g :: g in s.text && g != f ==> s'.text[g] == s.text[g])
             && f in s.mtime && s.mtime[f] == s.today && s'.log == s.log + [Record(f, chunk)]
             && s' == s.(text := s'.text, log := s'.log)
    ensures Append(s, id, data) == s'
  {
    var r := Append(s, id, data);
    assert forall g :: g in r.text ==> r.text[g] == s'.text[g];
    assert forall g :: g in r.text <==> g in s'.text;
    assert r.text == s'.text;
    assert r.mtime == s.mtime;
    assert r.log == s'.log;
  }

  lemma FirstRollsOver()
    ensures Step(EightDaysLater(), Write(1, "a"), FirstWrote())
  {
    var s := EightDaysLater();
    assert FirstFree(s.dir, 0, 0) == 0;
    assert ArchiveLive(s, 0).dir == FirstArchived().dir;
    var ready := SetTee(OpenLive(FirstArchived()), 1);
    assert ready.dir == map[Archive(0, 0) := 0, Live := 1];
    PruneOne(ready, 0);
    assert Rollover(s, 1) == FirstReopened();
    AppendIs(FirstReopened(), 1, "a", FirstWrote());
  }

  lemma SecondRollsOver()
    ensures Step(FirstWrote(), Write(2, "b"), SecondWrote())
  {
    var s := FirstWrote();
    assert FirstFree(s.dir, 0, 0) == 0;
    assert ArchiveLive(s, 0).dir == SecondArchived().dir;
    var ready := SetTee(OpenLive(SecondArchived()), 2);
    assert ready.dir == map[Archive(0, 0) := 1, Live := 2];
    PruneOne(ready, 1);
    assert Rollover(s, 2) == SecondReopened();
    AppendIs(SecondReopened(), 2, "b", SecondWrote());
  }

  lemma FirstWritesOn()
    ensures Step(SecondWrote(), Write(1, "c"), FirstWroteAgain())
  {
    AppendIs(SecondWrote(), 1, "c", FirstWroteAgain());
  }

  lemma SecondIsLate()
    ensures !Prompt(FirstWrote(), Write(2, "b"))
  {
  }

  lemma SilentRun() returns (states: seq<State>, events: seq<Event>)
    ensures IsRun(states, events) && |events| == 6 && |states| == 7 && states[6] == FirstWroteAgain()
    ensures states[4] == FirstWrote() && events[4] == Write(2, "b")
  {
    StartBoth();
    FirstRollsOver();
    SecondRollsOver();
    FirstWritesOn();
    hide Step, OneStarted, BothStarted, EightDaysLater, FirstWrote, SecondWrote, FirstWroteAgain;
    events := [Start(1, false), Start(2, false), Later(8), Write(1, "a"), Write(2, "b"), Write(1, "c")];
    states := [EMPTY, OneStarted(), BothStarted(), EightDaysLater(), FirstWrote(), SecondWrote(), FirstWroteAgain()];
    forall i | 0 <= i < 6 ensures Step(states[i], events[i], states[i + 1]) {
      assert i == 0 || i == 1 || i == 2 || i == 3 || i == 4 || i == 5;
    }
  }

  /** The file of the first tee is archived under the other's old date and deleted at once, with text of the same day. */
  lemma SilentTeeLosesText() returns (states: seq<State>, events: seq<Event>)
    ensures IsRun(states, events) && |events| == 6
    ensures var s := states[6];
            && 1 in s.tees && !HasName(s, s.tees[1].file) && s.tees[1].file in s.pruned && s.tees[1].file in s.text
            && s.pruned[s.tees[1].file] == [Chunk(s.today, "a")]
            && s.text[s.tees[1].file] == [Chunk(s.today, "a"), Chunk(s.today, "c")]
    ensures !PromptRun(states, events)
  {
    states, events := SilentRun();
    SecondIsLate();
    hide IsRun, Prompt;
    assert !Prompt(states[4], events[4]);
  }
}
