/** Why LogRotationSafety is stated with its conditions: one run of three processes, all of whose rotations are
    automatic, in which a rotation that cannot open its new file leaves no log file at all, and another then
    archives a file that has just been created. */
module LogRotationRace {
  import opened Options
  import opened LogFiles
  import opened LogRotation

  /** Three processes with max_files 2 and max_size 1024. */
  function Three(procs: seq<Proc>, slot: map<nat, nat>, size: seq<nat>, lock: Option<nat>, archived: seq<Archive>,
                 broken: bool, lost: bool): State
  {
    State(2, 1024, slot, size, lock, procs, archived, broken, lost, false)
  }

  /** The files as they are archived: two by processes that had seen them full, the third just created. */
  const FIRST := Archive(0, 1024, Automatic(Own), true)
  const SECOND := Archive(1, 1024, Automatic(Own), true)
  const THIRD := Archive(2, 0, Automatic(Nothing), false)

  lemma Extend(states: seq<State>, events: seq<Event>, e: Event) returns (ss: seq<State>, es: seq<Event>)
    requires Run(states, events) && Enabled(states[|events|], e)
    ensures Run(ss, es) && ss[|es|] == Step(states[|events|], e)
    ensures es == events + [e]
  {
    ss, es := states + [Step(states[|events|], e)], events + [e];
  }

  /** No rotation was asked for explicitly. */
  predicate AllAutomatic(es: seq<Event>) { forall i :: 0 <= i < |es| && es[i].Request? ==> !es[i].forced }

  /** Three processes, none of them running. */
  lemma AllDown() returns (ss: seq<State>, es: seq<Event>)
    ensures Run(ss, es) && AllAutomatic(es)
    ensures ss[|es|] == Three(
              [Proc(Down, None), Proc(Down, None), Proc(Down, None)],
              map[], [], None, [], false, false)
  {
    ss, es := [Three([Proc(Down, None), Proc(Down, None), Proc(Down, None)], map[], [], None, [], false, false)], [];
  }

  /** Process 0 creates the log. */
  lemma FirstLaunches() returns (ss: seq<State>, es: seq<Event>)
    ensures Run(ss, es) && AllAutomatic(es)
    ensures ss[|es|] == Three(
              [Proc(StartOpen, None), Proc(Down, None), Proc(Down, None)],
              map[], [], Some(0), [], false, false)
  {
    ss, es := AllDown();
    ss, es := Extend(ss, es, Launch(0));
    ss, es := Extend(ss, es, Advance(0, true));
  }

  lemma FirstStarts() returns (ss: seq<State>, es: seq<Event>)
    ensures Run(ss, es) && AllAutomatic(es)
    ensures ss[|es|] == Three(
              [Proc(Running, Some(0)), Proc(Down, None), Proc(Down, None)],
              map[0 := 0], [0], None, [], false, false)
  {
    ss, es := FirstLaunches();
    ss, es := Extend(ss, es, Advance(0, true));
    assert ss[|es|].slot == map[0 := 0];
    ss, es := Extend(ss, es, Advance(0, false));
    ss, es := Extend(ss, es, Advance(0, true));
  }

  /** Processes 1 and 2 open it. */
  lemma SecondLaunches() returns (ss: seq<State>, es: seq<Event>)
    ensures Run(ss, es) && AllAutomatic(es)
    ensures ss[|es|] == Three(
              [Proc(Running, Some(0)), Proc(StartOpen, None), Proc(Down, None)],
              map[0 := 0], [0], Some(1), [], false, false)
  {
    ss, es := FirstStarts();
    ss, es := Extend(ss, es, Launch(1));
    ss, es := Extend(ss, es, Advance(1, true));
  }

  lemma SecondStarts() returns (ss: seq<State>, es: seq<Event>)
    ensures Run(ss, es) && AllAutomatic(es)
    ensures ss[|es|] == Three(
              [Proc(Running, Some(0)), Proc(Running, Some(0)), Proc(Down, None)],
              map[0 := 0], [0], None, [], false, false)
  {
    ss, es := SecondLaunches();
    ss, es := Extend(ss, es, Advance(1, true));
    assert ss[|es|].slot == map[0 := 0];
    ss, es := Extend(ss, es, Advance(1, false));
    ss, es := Extend(ss, es, Advance(1, true));
  }

  lemma ThirdLaunches() returns (ss: seq<State>, es: seq<Event>)
    ensures Run(ss, es) && AllAutomatic(es)
    ensures ss[|es|] == Three(
              [Proc(Running, Some(0)), Proc(Running, Some(0)), Proc(StartOpen, None)],
              map[0 := 0], [0], Some(2), [], false, false)
  {
    ss, es := SecondStarts();
    ss, es := Extend(ss, es, Launch(2));
    ss, es := Extend(ss, es, Advance(2, true));
  }

  lemma ThirdStarts() returns (ss: seq<State>, es: seq<Event>)
    ensures Run(ss, es) && AllAutomatic(es)
    ensures ss[|es|] == Three(
              [Proc(Running, Some(0)), Proc(Running, Some(0)), Proc(Running, Some(0))],
              map[0 := 0], [0], None, [], false, false)
  {
    ss, es := ThirdLaunches();
    ss, es := Extend(ss, es, Advance(2, true));
    assert ss[|es|].slot == map[0 := 0];
    ss, es := Extend(ss, es, Advance(2, false));
    ss, es := Extend(ss, es, Advance(2, true));
  }

  /** The log fills up, and process 0 finds that it has to rotate. */
  lemma LogFills() returns (ss: seq<State>, es: seq<Event>)
    ensures Run(ss, es) && AllAutomatic(es)
    ensures ss[|es|] == Three(
              [Proc(Running, Some(0)), Proc(Running, Some(0)), Proc(Running, Some(0))],
              map[0 := 0], [1024], None, [], false, false)
  {
    ss, es := ThirdStarts();
    ss, es := Extend(ss, es, Write(1, 1024));
  }

  lemma FirstChecks() returns (ss: seq<State>, es: seq<Event>)
    ensures Run(ss, es) && AllAutomatic(es)
    ensures ss[|es|] == Three(
              [Proc(Lock(false), Some(0)), Proc(Running, Some(0)), Proc(Running, Some(0))],
              map[0 := 0], [1024], None, [], false, false)
  {
    ss, es := LogFills();
    ss, es := Extend(ss, es, Request(0, false));
    ss, es := Extend(ss, es, Advance(0, true));
    ss, es := Extend(ss, es, Advance(0, true));
  }

  lemma FirstLocks() returns (ss: seq<State>, es: seq<Event>)
    ensures Run(ss, es) && AllAutomatic(es)
    ensures ss[|es|] == Three(
              [Proc(Unlink(Automatic(Own)), Some(0)), Proc(Running, Some(0)), Proc(Running, Some(0))],
              map[0 := 0], [1024], Some(0), [], false, false)
  {
    ss, es := FirstChecks();
    ss, es := Extend(ss, es, Advance(0, true));
    ss, es := Extend(ss, es, Advance(0, true));
  }

  /** It moves the log file away ... */
  lemma FirstMoves() returns (ss: seq<State>, es: seq<Event>)
    ensures Run(ss, es) && AllAutomatic(es)
    ensures ss[|es|] == Three(
              [Proc(OpenNew, Some(0)), Proc(Running, Some(0)), Proc(Running, Some(0))],
              map[1 := 0], [1024], Some(0), [FIRST], false, false)
  {
    ss, es := FirstLocks();
    ss, es := Extend(ss, es, Advance(0, true));
    assert ss[|es|].slot == map[0 := 0];
    ss, es := Extend(ss, es, Advance(0, true));
    assert ss[|es|].slot == map[1 := 0];
  }

  /** ... and creates the next one. */
  lemma FirstOpens() returns (ss: seq<State>, es: seq<Event>)
    ensures Run(ss, es) && AllAutomatic(es)
    ensures ss[|es|] == Three(
              [Proc(Running, Some(1)), Proc(Running, Some(0)), Proc(Running, Some(0))],
              map[0 := 1, 1 := 0], [1024, 0], None, [FIRST], false, false)
  {
    ss, es := FirstMoves();
    ss, es := Extend(ss, es, Advance(0, true));
    assert ss[|es|].slot == map[0 := 1, 1 := 0];
    ss, es := Extend(ss, es, Advance(0, true));
  }

  /** Process 2 sees that its file was replaced, and is about to reopen the log.  The next file fills up. */
  lemma ThirdFallsBehind() returns (ss: seq<State>, es: seq<Event>)
    ensures Run(ss, es) && AllAutomatic(es)
    ensures ss[|es|] == Three(
              [Proc(Running, Some(1)), Proc(Running, Some(0)), Proc(Reopen(false), Some(0))],
              map[0 := 1, 1 := 0], [1024, 1024], None, [FIRST], false, false)
  {
    ss, es := FirstOpens();
    ss, es := Extend(ss, es, Request(2, false));
    ss, es := Extend(ss, es, Advance(2, true));
    ss, es := Extend(ss, es, Advance(2, true));
    ss, es := Extend(ss, es, Write(0, 1024));
  }

  lemma FirstChecksAgain() returns (ss: seq<State>, es: seq<Event>)
    ensures Run(ss, es) && AllAutomatic(es)
    ensures ss[|es|] == Three(
              [Proc(Lock(false), Some(1)), Proc(Running, Some(0)), Proc(Reopen(false), Some(0))],
              map[0 := 1, 1 := 0], [1024, 1024], None, [FIRST], false, false)
  {
    ss, es := ThirdFallsBehind();
    ss, es := Extend(ss, es, Request(0, false));
    ss, es := Extend(ss, es, Advance(0, true));
    ss, es := Extend(ss, es, Advance(0, true));
  }

  lemma FirstLocksAgain() returns (ss: seq<State>, es: seq<Event>)
    ensures Run(ss, es) && AllAutomatic(es)
    ensures ss[|es|] == Three(
              [Proc(Unlink(Automatic(Own)), Some(1)), Proc(Running, Some(0)), Proc(Reopen(false), Some(0))],
              map[0 := 1, 1 := 0], [1024, 1024], Some(0), [FIRST], false, false)
  {
    ss, es := FirstChecksAgain();
    ss, es := Extend(ss, es, Advance(0, true));
    ss, es := Extend(ss, es, Advance(0, true));
  }

  lemma FirstMovesAgain() returns (ss: seq<State>, es: seq<Event>)
    ensures Run(ss, es) && AllAutomatic(es)
    ensures ss[|es|] == Three(
              [Proc(OpenNew, Some(1)), Proc(Running, Some(0)), Proc(Reopen(false), Some(0))],
              map[1 := 1], [1024, 1024], Some(0), [FIRST, SECOND], false, false)
  {
    ss, es := FirstLocksAgain();
    ss, es := Extend(ss, es, Advance(0, true));
    assert ss[|es|].slot == map[0 := 1];
    ss, es := Extend(ss, es, Advance(0, true));
    assert ss[|es|].slot == map[1 := 1];
  }

  /** This time process 0 cannot open a new file. */
  lemma FirstFails() returns (ss: seq<State>, es: seq<Event>)
    ensures Run(ss, es) && AllAutomatic(es)
    ensures ss[|es|] == Three(
              [Proc(Running, None), Proc(Running, Some(0)), Proc(Reopen(false), Some(0))],
              map[1 := 1], [1024, 1024], None, [FIRST, SECOND], true, true)
  {
    ss, es := FirstMovesAgain();
    ss, es := Extend(ss, es, Advance(0, false));
    ss, es := Extend(ss, es, Advance(0, true));
  }

  /** Process 1 finds its file full and none in its place, and begins to rotate. */
  lemma SecondChecks() returns (ss: seq<State>, es: seq<Event>)
    ensures Run(ss, es) && AllAutomatic(es)
    ensures ss[|es|] == Three(
              [Proc(Running, None), Proc(Lock(false), Some(0)), Proc(Reopen(false), Some(0))],
              map[1 := 1], [1024, 1024], None, [FIRST, SECOND], true, true)
  {
    ss, es := FirstFails();
    ss, es := Extend(ss, es, Request(1, false));
    ss, es := Extend(ss, es, Advance(1, true));
    ss, es := Extend(ss, es, Advance(1, true));
  }

  lemma SecondLocks() returns (ss: seq<State>, es: seq<Event>)
    ensures Run(ss, es) && AllAutomatic(es)
    ensures ss[|es|] == Three(
              [Proc(Running, None), Proc(Unlink(Automatic(Nothing)), Some(0)), Proc(Reopen(false), Some(0))],
              map[1 := 1], [1024, 1024], Some(1), [FIRST, SECOND], true, true)
  {
    ss, es := SecondChecks();
    ss, es := Extend(ss, es, Advance(1, true));
    ss, es := Extend(ss, es, Advance(1, true));
  }

  lemma SecondUnlinks() returns (ss: seq<State>, es: seq<Event>)
    ensures Run(ss, es) && AllAutomatic(es)
    ensures ss[|es|] == Three(
              [Proc(Running, None), Proc(Rename(0, Automatic(Nothing)), Some(0)), Proc(Reopen(false), Some(0))],
              map[], [1024, 1024], Some(1), [FIRST, SECOND], true, true)
  {
    ss, es := SecondLocks();
    ss, es := Extend(ss, es, Advance(1, true));
    assert ss[|es|].slot == map[];
  }

  /** Process 2 creates the new log, and process 1 archives it empty. */
  lemma ThirdReopens() returns (ss: seq<State>, es: seq<Event>)
    ensures Run(ss, es) && AllAutomatic(es)
    ensures ss[|es|] == Three(
              [Proc(Running, None), Proc(OpenNew, Some(0)), Proc(Running, Some(2))],
              map[1 := 2], [1024, 1024, 0], Some(1), [FIRST, SECOND, THIRD], true, false)
  {
    ss, es := SecondUnlinks();
    ss, es := Extend(ss, es, Advance(2, true));
    assert ss[|es|].slot == map[0 := 2];
    ss, es := Extend(ss, es, Advance(1, true));
    assert ss[|es|].slot == map[1 := 2];
  }

  /** A rotation that cannot open its new file leaves slot 0 empty with the lock free. */
  lemma FailedOpenLeavesNoFile() returns (ss: seq<State>, es: seq<Event>)
    ensures Run(ss, es) && AllAutomatic(es)
    ensures ss[|es|].lock.None? && ss[|es|].size != [] && 0 !in ss[|es|].slot
  {
    ss, es := FirstFails();
  }

  /** So does one whose process dies between its last rename and its open. */
  lemma DeathLeavesNoFile() returns (ss: seq<State>, es: seq<Event>)
    ensures Run(ss, es) && AllAutomatic(es)
    ensures ss[|es|].lock.None? && ss[|es|].size != [] && 0 !in ss[|es|].slot
  {
    ss, es := FirstMoves();
    ss, es := Extend(ss, es, Die(0));
  }

  /** An automatic rotation archives a file far below max_size. */
  lemma ArchivedTooEarly() returns (ss: seq<State>, es: seq<Event>)
    ensures Run(ss, es) && AllAutomatic(es)
    ensures var s := ss[|es|];
            exists k :: 0 <= k < |s.archived| && s.archived[k].cause.Automatic? && s.archived[k].size < s.maxSize
  {
    ss, es := ThirdReopens();
    assert ss[|es|].archived[2] == THIRD;
  }
}
