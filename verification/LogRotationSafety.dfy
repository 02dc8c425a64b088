/** What every interleaving of processes keeps while they rotate one log, any of them dying at any time. */
module LogRotationSafety {
  import opened Options
  import opened LogFiles
  import opened LogRotation

  // ----- The invariant -----

  /** A lower slot holds a younger file. */
  predicate NewestFirst(slot: map<nat, nat>, inodes: nat)
  {
    && (forall i :: i in slot ==> slot[i] < inodes)
    && (forall i, j :: i in slot && j in slot && i < j ==> slot[i] > slot[j])
  }

  predicate LockMatches(s: State)
  {
    forall p :: 0 <= p < |s.procs| ==> (Holding(s.procs[p].pc) <==> s.lock == Some(p))
  }

  /** In an automatic rotation, past the check of the size. */
  predicate SeenFull(pc: Pc)
  {
    pc.FirstStat? || pc == Lock(false) || pc.SecondStat? || Shifting(pc)
  }

  /** In an automatic rotation, past the second stat. */
  predicate Shifting(pc: Pc) { (pc.Unlink? || pc.Rename?) && pc.cause.Automatic? }

  /** What was in slot 0 at the second stat of an automatic rotation tells whose file is there now. */
  predicate StillSeen(s: State, log: nat, seen: Seen)
  {
    match seen
    case Own => 0 in s.slot && s.slot[0] == log
    case Other => s.blind && 0 in s.slot && s.slot[0] != log
    case Nothing => s.broken && (0 in s.slot ==> s.slot[0] != log)
  }

  /** An automatic rotation has seen its file reach max_size. */
  predicate Justified(s: State, q: Proc)
  {
    && (q.log.Some? ==> q.log.value < |s.size|)
    && (q.pc.Probe? || SeenFull(q.pc) ==> q.log.Some? && s.maxSize > 0)
    && (SeenFull(q.pc) ==> s.size[q.log.value] >= s.maxSize)
    && (Shifting(q.pc) ==> StillSeen(s, q.log.value, q.pc.cause.seen))
    && (q.pc.Rename? ==> q.pc.i + 2 <= s.files && q.pc.i + 1 !in s.slot)
  }

  /** Slot 0 is empty only before the first file, between the last rename of a rotation and its open, or after a
      rotation ended there and until the next file is created. */
  predicate Occupied(s: State)
  {
    && (s.lost ==> 0 !in s.slot && s.broken)
    && (0 in s.slot || s.size == [] || s.lost
        || (s.lock.Some? && s.lock.value < |s.procs| && s.procs[s.lock.value].pc.OpenNew?))
  }

  /** The file archived by an automatic rotation: its own, and full, exactly when that was in place at the second
      stat. */
  predicate ArchivedRightly(a: Archive, maxSize: nat, broken: bool, blind: bool)
  {
    a.cause.Automatic? ==>
      && (a.own <==> a.cause.seen == Own)
      && (a.cause.seen == Own ==> a.size >= maxSize > 0)
      && (a.cause.seen == Nothing ==> broken)
      && (a.cause.seen == Other ==> blind)
  }

  predicate Records(s: State)
  {
    && (forall k :: 0 <= k < |s.archived| ==>
          && s.archived[k].inode < |s.size|
          && (0 in s.slot ==> s.archived[k].inode < s.slot[0])
          && ArchivedRightly(s.archived[k], s.maxSize, s.broken, s.blind))
    && (forall k, l :: 0 <= k < l < |s.archived| ==> s.archived[k].inode < s.archived[l].inode)
  }

  predicate Inv(s: State)
  {
    && s.files >= 2
    && NewestFirst(s.slot, |s.size|) && LockMatches(s) && Occupied(s) && Records(s)
    && (forall p :: 0 <= p < |s.procs| ==> Justified(s, s.procs[p]))
  }

  lemma InitInv(s: State)
    requires Init(s)
    ensures Inv(s)
  {
  }

  // ----- Steps -----

  /** The purge removes exactly the unbroken row of slots from max_files on. */
  lemma {:induction false} PurgedIff(slot: map<nat, nat>, i: nat, j: nat)
    ensures j in Purged(slot, i) <==> j in slot && (j < i || exists k :: i <= k < j && k !in slot)
    ensures j in Purged(slot, i) ==> Purged(slot, i)[j] == slot[j]
    decreases |slot|
  {
    if i in slot {
      assert slot.Keys == (slot - {i}).Keys + {i};
      PurgedIff(slot - {i}, i + 1, j);
      if k :| i <= k < j && k !in slot {
        assert k !in slot - {i};
      }
    } else if j > i {
      assert i <= i < j && i !in slot;
    }
  }

  function Put(s: State, p: nat, q: Proc): State
    requires p < |s.procs|
  {
    s.(procs := s.procs[p := q])
  }

  /** A step that leaves files alone and changes one process, which does not gain or give up the lock. */
  lemma PutInv(s: State, p: nat, q: Proc)
    requires Inv(s) && p < |s.procs| && (Holding(q.pc) <==> Holding(s.procs[p].pc))
    requires s.procs[p].pc.OpenNew? ==> 0 in s.slot || s.lost
    requires Justified(s, q)
    ensures Inv(Put(s, p, q))
  {
    var s' := Put(s, p, q);
    forall r | 0 <= r < |s'.procs|
      ensures Justified(s', s'.procs[r]) && (Holding(s'.procs[r].pc) <==> s'.lock == Some(r))
    {
      assert Justified(s, s.procs[r]);
    }
  }

  lemma GoInv(s: State, p: nat, pc: Pc)
    requires Inv(s) && p < |s.procs| && (Holding(pc) <==> Holding(s.procs[p].pc)) && !s.procs[p].pc.OpenNew?
    requires Justified(s, s.procs[p].(pc := pc))
    ensures Inv(Go(s, p, pc))
  {
    PutInv(s, p, s.procs[p].(pc := pc));
  }

  lemma LockInv(s: State, p: nat, pc: Pc)
    requires Inv(s) && p < |s.procs| && s.lock.None? && Holding(pc) && !pc.OpenNew?
    requires Justified(s, s.procs[p].(pc := pc))
    ensures Inv(Go(s, p, pc).(lock := Some(p)))
  {
    var s' := Go(s, p, pc).(lock := Some(p));
    forall q | 0 <= q < |s'.procs|
      ensures Justified(s', s'.procs[q]) && (Holding(s'.procs[q].pc) <==> s'.lock == Some(q))
    {
      assert Justified(s, s.procs[q]);
    }
  }

  /** A process ends what it was doing and holds no lock any more. */
  lemma ReleaseInv(s: State, p: nat, q: Proc)
    requires Inv(s) && p < |s.procs| && !Holding(q.pc) && Justified(s, q)
    requires s.procs[p].pc.OpenNew? ==> 0 in s.slot || s.lost
    ensures Inv(Put(s, p, q).(lock := if s.lock == Some(p) then None else s.lock))
  {
    var s' := Put(s, p, q).(lock := if s.lock == Some(p) then None else s.lock);
    ReleaseMatches(s, p, q);
    PutJustified(s, p, q, s');
    assert Records(s');
  }

  lemma PutJustified(s: State, p: nat, q: Proc, s': State)
    requires p < |s.procs| && Justified(s, q) && s' == Put(s, p, q).(lock := s'.lock)
    requires forall r :: 0 <= r < |s.procs| ==> Justified(s, s.procs[r])
    ensures forall r :: 0 <= r < |s'.procs| ==> Justified(s', s'.procs[r])
  {
    forall r | 0 <= r < |s'.procs|
      ensures Justified(s', s'.procs[r])
    {
      assert Justified(s, if r == p then q else s.procs[r]);
    }
  }

  lemma ReleaseMatches(s: State, p: nat, q: Proc)
    requires LockMatches(s) && Occupied(s) && p < |s.procs| && !Holding(q.pc)
    requires s.procs[p].pc.OpenNew? ==> 0 in s.slot || s.lost
    ensures var s' := Put(s, p, q).(lock := if s.lock == Some(p) then None else s.lock); LockMatches(s') && Occupied(s')
  {
  }

  /** A rotation ends between its last rename and its open. */
  lemma BreakInv(s: State)
    requires Inv(s)
    ensures Inv(Break(s)) && (0 in s.slot || Break(s).lost)
  {
    var s' := Break(s);
    forall r | 0 <= r < |s'.procs|
      ensures Justified(s', s'.procs[r])
    {
      assert Justified(s, s.procs[r]);
    }
  }

  function Created(s: State): State { s.(slot := s.slot[0 := |s.size|], size := s.size + [0], lost := false) }

  lemma CreatedJustified(s: State, q: Proc)
    requires 0 !in s.slot && Justified(s, q)
    ensures Justified(Created(s), q)
  {
  }

  /** A new file in slot 0 is younger than all others. */
  lemma CreatedInv(s: State)
    requires Inv(s) && 0 !in s.slot
    ensures Inv(Created(s))
  {
    var s' := Created(s);
    assert NewestFirst(s'.slot, |s'.size|);
    forall r | 0 <= r < |s'.procs|
      ensures Justified(s', s'.procs[r])
    {
      CreatedJustified(s, s.procs[r]);
    }
  }

  /** Opening slot 0, with or without the lock: the file found there, or a new one. */
  lemma OpenInv(s: State, p: nat, pc: Pc)
    requires Inv(s) && p < |s.procs| && (Holding(pc) <==> Holding(s.procs[p].pc))
    requires pc.StartPurge? || pc.Unlock? || pc.Running?
    ensures Inv(OpenLog(s, p, pc))
  {
    if 0 in s.slot {
      PutInv(s, p, Proc(pc, Some(s.slot[0])));
    } else {
      CreatedInv(s);
      PutInv(Created(s), p, Proc(pc, Some(|s.size|)));
    }
  }

  lemma PurgeInv(s: State, p: nat)
    requires Inv(s) && p < |s.procs| && s.procs[p].pc.StartPurge?
    ensures Inv(Go(s, p, Unlock).(slot := Purged(s.slot, s.files)))
  {
    var slot' := Purged(s.slot, s.files);
    forall j: nat
      ensures j in slot' ==> j in s.slot && slot'[j] == s.slot[j]
      ensures j < s.files && j in s.slot ==> j in slot'
    {
      PurgedIff(s.slot, s.files, j);
    }
    assert s.lock == Some(p);
    var s' := Go(s, p, Unlock).(slot := slot');
    forall q | 0 <= q < |s'.procs|
      ensures Justified(s', s'.procs[q]) && (Holding(s'.procs[q].pc) <==> s'.lock == Some(q))
    {
      assert Justified(s, s.procs[q]);
      assert q != p ==> !Holding(s.procs[q].pc);
    }
  }

  lemma UnlinkInv(s: State, p: nat)
    requires Inv(s) && p < |s.procs| && s.procs[p].pc.Unlink?
    ensures Inv(Call(s, p, true))
  {
    var s' := Call(s, p, true);
    assert s.lock == Some(p) && Justified(s, s.procs[p]);
    forall q | 0 <= q < |s'.procs|
      ensures Justified(s', s'.procs[q]) && (Holding(s'.procs[q].pc) <==> s'.lock == Some(q))
    {
      assert Justified(s, s.procs[q]);
      assert q != p ==> !Holding(s.procs[q].pc);
    }
  }

  /** A rename goes to a free slot, so order survives. */
  lemma MovedKeepsOrder(slot: map<nat, nat>, i: nat, inodes: nat)
    requires NewestFirst(slot, inodes) && i + 1 !in slot
    ensures NewestFirst(Moved(slot, i), inodes) && i !in Moved(slot, i)
    ensures i > 0 ==> (0 in Moved(slot, i) <==> 0 in slot)
    ensures i > 0 && 0 in slot ==> Moved(slot, i)[0] == slot[0]
  {
  }

  lemma RenameInv(s: State, p: nat)
    requires Inv(s) && p < |s.procs| && s.procs[p].pc.Rename? && s.procs[p].pc.i > 0
    ensures Inv(Call(s, p, true))
  {
    var s' := Call(s, p, true);
    assert s.lock == Some(p) && Justified(s, s.procs[p]);
    MovedKeepsOrder(s.slot, s.procs[p].pc.i, |s.size|);
    forall q | 0 <= q < |s'.procs|
      ensures Justified(s', s'.procs[q]) && (Holding(s'.procs[q].pc) <==> s'.lock == Some(q))
    {
      assert Justified(s, s.procs[q]);
      assert q != p ==> !Holding(s.procs[q].pc);
    }
  }

  lemma LastRenameRecords(s: State, p: nat)
    requires Inv(s) && p < |s.procs| && s.procs[p].pc.Rename? && s.procs[p].pc.i == 0
    ensures Records(Call(s, p, true))
  {
    assert Justified(s, s.procs[p]);
  }

  lemma LastRenameInv(s: State, p: nat)
    requires Inv(s) && p < |s.procs| && s.procs[p].pc.Rename? && s.procs[p].pc.i == 0
    ensures Inv(Call(s, p, true))
  {
    var s' := Call(s, p, true);
    assert s.lock == Some(p) && Justified(s, s.procs[p]);
    MovedKeepsOrder(s.slot, 0, |s.size|);
    LastRenameRecords(s, p);
    forall q | 0 <= q < |s'.procs|
      ensures Justified(s', s'.procs[q]) && (Holding(s'.procs[q].pc) <==> s'.lock == Some(q))
    {
      assert Justified(s, s.procs[q]);
      assert q != p ==> !Holding(s.procs[q].pc);
    }
  }

  lemma OpenFailedInv(s: State, p: nat)
    requires Inv(s) && p < |s.procs| && s.procs[p].pc.OpenNew?
    ensures Inv(Call(s, p, false))
  {
    BreakInv(s);
    PutInv(Break(s), p, Proc(Unlock, None));
  }

  lemma WriteInv(s: State, p: nat, n: nat)
    requires Inv(s) && Enabled(s, Write(p, n))
    ensures Inv(Step(s, Write(p, n)))
  {
    var s' := Step(s, Write(p, n));
    forall q | 0 <= q < |s'.procs|
      ensures Justified(s', s'.procs[q]) && (Holding(s'.procs[q].pc) <==> s'.lock == Some(q))
    {
      assert Justified(s, s.procs[q]);
    }
  }

  lemma StartupInv(s: State, p: nat, ok: bool)
    requires Inv(s) && Enabled(s, Advance(p, ok))
    requires s.procs[p].pc.StartLock? || s.procs[p].pc.StartOpen? || s.procs[p].pc.StartPurge? || s.procs[p].pc.Unlock?
    ensures Inv(Call(s, p, ok))
  {
    assert Justified(s, s.procs[p]);
    match s.procs[p].pc {
      case StartLock => if ok { LockInv(s, p, StartOpen); } else { GoInv(s, p, Running); }
      case StartOpen => if ok { OpenInv(s, p, StartPurge); } else { GoInv(s, p, Unlock); }
      case StartPurge => if ok { PurgeInv(s, p); } else { GoInv(s, p, Unlock); }
      case Unlock => ReleaseInv(s, p, s.procs[p].(pc := Running));
    }
  }

  lemma CheckInv(s: State, p: nat, ok: bool)
    requires Inv(s) && Enabled(s, Advance(p, ok))
    requires s.procs[p].pc.Probe? || s.procs[p].pc.FirstStat? || s.procs[p].pc.Lock? || s.procs[p].pc.SecondStat?
    ensures Inv(Call(s, p, ok))
  {
    assert Justified(s, s.procs[p]);
    match s.procs[p].pc {
      case Probe => GoInv(s, p, if Full(s, s.procs[p].log) then FirstStat else Running);
      case FirstStat => GoInv(s, p, if ok && Replaced(s, p) then Reopen(false) else Lock(false));
      case Lock(forced) =>
        if ok { LockInv(s, p, if forced then Unlink(Forced) else SecondStat); } else { GoInv(s, p, Running); }
      case SecondStat => SecondStatInv(s, p, ok);
    }
  }

  /** A stat fails although there is a file. */
  lemma BlindInv(s: State)
    requires Inv(s)
    ensures Inv(s.(blind := true))
  {
    var s' := s.(blind := true);
    forall r | 0 <= r < |s'.procs|
      ensures Justified(s', s'.procs[r])
    {
      assert Justified(s, s.procs[r]);
    }
  }

  lemma SecondStatInv(s: State, p: nat, ok: bool)
    requires Inv(s) && p < |s.procs| && s.procs[p].pc.SecondStat?
    ensures Inv(Call(s, p, ok))
  {
    assert s.lock == Some(p) && Justified(s, s.procs[p]);
    if ok && Replaced(s, p) {
      GoInv(s, p, Reopen(true));
    } else {
      var s1 := s.(blind := s.blind || (!ok && 0 in s.slot));
      BlindInv(s);
      assert Justified(s1, s.procs[p]);
      GoInv(s1, p, Unlink(Automatic(Look(s, p))));
    }
  }

  lemma RotateInv(s: State, p: nat, ok: bool)
    requires Inv(s) && Enabled(s, Advance(p, ok))
    requires s.procs[p].pc.Reopen? || s.procs[p].pc.Unlink? || s.procs[p].pc.Rename? || s.procs[p].pc.OpenNew?
    ensures Inv(Call(s, p, ok))
  {
    assert Justified(s, s.procs[p]);
    match s.procs[p].pc {
      case Reopen(locked) =>
        var next := if locked then Unlock else Running;
        if ok { OpenInv(s, p, next); } else { PutInv(s, p, Proc(next, None)); }
      case Unlink(_) => if ok { UnlinkInv(s, p); } else { GoInv(s, p, Unlock); }
      case Rename(i, _) =>
        if !ok { GoInv(s, p, Unlock); } else if i > 0 { RenameInv(s, p); } else { LastRenameInv(s, p); }
      case OpenNew => if ok { OpenInv(s, p, Unlock); } else { OpenFailedInv(s, p); }
    }
  }

  lemma CallInv(s: State, p: nat, ok: bool)
    requires Inv(s) && Enabled(s, Advance(p, ok))
    ensures Inv(Call(s, p, ok))
  {
    var pc := s.procs[p].pc;
    if pc.StartLock? || pc.StartOpen? || pc.StartPurge? || pc.Unlock? {
      StartupInv(s, p, ok);
    } else if pc.Probe? || pc.FirstStat? || pc.Lock? || pc.SecondStat? {
      CheckInv(s, p, ok);
    } else if pc.Reopen? || pc.Unlink? || pc.Rename? || pc.OpenNew? {
      RotateInv(s, p, ok);
    }
  }

  lemma KilledInv(s: State, p: nat)
    requires Inv(s) && p < |s.procs|
    ensures Inv(Killed(s, p))
  {
    if s.procs[p].pc.OpenNew? {
      BreakInv(s);
      ReleaseInv(Break(s), p, Proc(Down, None));
    } else {
      ReleaseInv(s, p, Proc(Down, None));
    }
  }

  lemma StepInv(s: State, e: Event)
    requires Inv(s) && Enabled(s, e)
    ensures Inv(Step(s, e))
  {
    assert Justified(s, s.procs[e.p]);
    match e {
      case Launch(p) => GoInv(s, p, StartLock);
      case Request(p, forced) => GoInv(s, p, if forced then Lock(true) else if s.maxSize == 0 then Running else Probe);
      case Write(p, n) => WriteInv(s, p, n);
      case Advance(p, ok) => CallInv(s, p, ok);
      case Die(p) => KilledInv(s, p);
    }
  }

  lemma {:induction false} Reachable(states: seq<State>, events: seq<Event>, i: nat)
    requires Run(states, events) && i < |states|
    ensures Inv(states[i])
  {
    if i == 0 {
      InitInv(states[0]);
    } else {
      Reachable(states, events, i - 1);
      StepInv(states[i - 1], events[i - 1]);
    }
  }

  // ----- Main results -----

  /** Once a log file exists, and whenever the control lock is free, slot 0 is occupied exactly unless a
      rotation failed or died between its last rename and its open, with no file in place, and no process has
      created one since. */
  lemma CurrentFileExists(states: seq<State>, events: seq<Event>, i: nat)
    requires Run(states, events) && i < |states|
    requires states[i].lock.None? && states[i].size != []
    ensures 0 in states[i].slot <==> !states[i].lost
    ensures states[i].lost ==> states[i].broken
  {
    Reachable(states, events, i);
  }

  /** Each inode leaves slot 0 at most once. */
  lemma LeavesOnce(states: seq<State>, events: seq<Event>, i: nat, k: nat, l: nat)
    requires Run(states, events) && i < |states| && k < l < |states[i].archived|
    ensures states[i].archived[k].inode != states[i].archived[l].inode
  {
    Reachable(states, events, i);
  }

  /** An inode that has left slot 0 is never there again. */
  lemma NeverReturns(states: seq<State>, events: seq<Event>, i: nat, k: nat)
    requires Run(states, events) && i < |states| && k < |states[i].archived|
    ensures 0 in states[i].slot ==> states[i].slot[0] != states[i].archived[k].inode
  {
    Reachable(states, events, i);
  }

  /** An automatic rotation archives the file that its process has seen reach max_size if and only if that file is in
      slot 0 at its second stat, with the lock held.  None is there only after some rotation ended between its last
      rename and its open, another one only if a stat failed; so where stat works, that the second stat succeeds is
      the exact condition.  With max_size zero there is no automatic rotation. */
  lemma ArchivedWereFull(states: seq<State>, events: seq<Event>, i: nat, k: nat)
    requires Run(states, events) && i < |states| && k < |states[i].archived|
    requires states[i].archived[k].cause.Automatic?
    ensures var a := states[i].archived[k];
            && (a.own <==> a.cause.seen == Own)
            && (a.cause.seen == Own ==> a.size >= states[i].maxSize > 0)
            && (a.cause.seen == Nothing ==> states[i].broken)
            && (a.cause.seen == Other ==> states[i].blind)
  {
    Reachable(states, events, i);
  }

  /** Files are numbered newest first, so no file is in two slots; a rename in progress has a free target. */
  lemma SlotsNewestFirst(states: seq<State>, events: seq<Event>, i: nat)
    requires Run(states, events) && i < |states|
    ensures var s := states[i];
            && (forall a, b :: a in s.slot && b in s.slot && a < b ==> s.slot[a] > s.slot[b])
            && (forall p :: 0 <= p < |s.procs| && s.procs[p].pc.Rename? ==> s.procs[p].pc.i + 1 !in s.slot)
  {
    Reachable(states, events, i);
    var s := states[i];
    forall p | 0 <= p < |s.procs| && s.procs[p].pc.Rename?
      ensures s.procs[p].pc.i + 1 !in s.slot
    {
      assert Justified(s, s.procs[p]);
    }
  }

  /** The file in slot j is still there after the step, or the step is the unlink of the oldest or a purge. */
  predicate Survives(s: State, s': State, e: Event, j: nat)
    requires Enabled(s, e) && j in s.slot
  {
    || (exists k :: k in s'.slot && s'.slot[k] == s.slot[j])
    || (j == s.files - 1 && e.Advance? && s.procs[e.p].pc.Unlink?)
    || (j >= s.files && e.Advance? && s.procs[e.p].pc.StartPurge?)
  }

  predicate Keeps(was: map<nat, nat>, now: map<nat, nat>, j: nat)
  {
    j in was ==> j in now && now[j] == was[j]
  }

  lemma OpenKeeps(s: State, p: nat, pc: Pc, j: nat)
    requires p < |s.procs|
    ensures Keeps(s.slot, OpenLog(s, p, pc).slot, j)
  {
  }

  /** Only a purge, an unlink and a rename take a file from its slot. */
  lemma CallKeeps(s: State, p: nat, ok: bool, j: nat)
    requires s.files >= 2 && p < |s.procs|
    requires !s.procs[p].pc.StartPurge? && !s.procs[p].pc.Unlink? && !s.procs[p].pc.Rename?
    ensures Keeps(s.slot, Call(s, p, ok).slot, j)
  {
    var pc := s.procs[p].pc;
    if pc.StartOpen? {
      OpenKeeps(s, p, StartPurge, j);
    } else if pc.Reopen? {
      OpenKeeps(s, p, if pc.locked then Unlock else Running, j);
    } else if pc.OpenNew? {
      OpenKeeps(s, p, Unlock, j);
    } else {
      assert Call(s, p, ok).slot == s.slot;
    }
  }

  lemma EventKeeps(s: State, e: Event, j: nat)
    requires Enabled(s, e)
    requires e.Advance? ==> !s.procs[e.p].pc.StartPurge? && !s.procs[e.p].pc.Unlink? && !s.procs[e.p].pc.Rename?
    ensures Keeps(s.slot, Step(s, e).slot, j)
  {
    if e.Advance? {
      CallKeeps(s, e.p, e.ok, j);
    } else {
      assert Step(s, e).slot == s.slot;
    }
  }

  lemma RenameSurvives(s: State, p: nat, ok: bool, j: nat)
    requires s.files >= 2 && p < |s.procs| && s.procs[p].pc.Rename? && s.procs[p].pc.i + 1 !in s.slot && j in s.slot
    ensures exists k :: k in Call(s, p, ok).slot && Call(s, p, ok).slot[k] == s.slot[j]
  {
    var s' := Call(s, p, ok);
    if j == s.procs[p].pc.i && ok {
      assert j + 1 in s'.slot && s'.slot[j + 1] == s.slot[j];
    } else {
      assert j in s'.slot && s'.slot[j] == s.slot[j];
    }
  }

  lemma StepSurvives(s: State, e: Event, j: nat)
    requires Enabled(s, e) && j in s.slot
    requires e.Advance? && s.procs[e.p].pc.Rename? ==> s.procs[e.p].pc.i + 1 !in s.slot
    ensures Survives(s, Step(s, e), e, j)
  {
    if e.Advance? && s.procs[e.p].pc.StartPurge? {
      PurgedIff(s.slot, s.files, j);
    } else if e.Advance? && s.procs[e.p].pc.Rename? {
      RenameSurvives(s, e.p, e.ok, j);
      assert Step(s, e) == Call(s, e.p, e.ok);
    } else if e.Advance? && s.procs[e.p].pc.Unlink? {
      assert j != s.files - 1 ==> j in Step(s, e).slot && Step(s, e).slot[j] == s.slot[j];
    } else {
      EventKeeps(s, e, j);
    }
  }

  /** A file disappears only by the unlink of slot files - 1, or by the purge of slots from files on. */
  lemma OnlyOldestIsLost(states: seq<State>, events: seq<Event>, i: nat, j: nat)
    requires Run(states, events) && i < |events| && j in states[i].slot
    ensures Survives(states[i], states[i + 1], events[i], j)
  {
    Reachable(states, events, i);
    var s, e := states[i], events[i];
    assert e.Advance? ==> Justified(s, s.procs[e.p]);
    StepSurvives(s, e, j);
  }

  // ----- A rotation among the steps of other processes -----

  /** As LogFiles.ShiftedFrom, but for slot 0, where another process may create a file at any time. */
  ghost predicate ShiftedAbove(was: map<nat, nat>, now: map<nat, nat>, m: nat, k: nat)
  {
    && (forall j: nat :: 0 < j < k || j >= m ==> At(now, j) == At(was, j))
    && (forall j: nat :: 0 < k < j < m ==> At(now, j) == At(was, j - 1))
    && (0 < k < m ==> At(now, k) == None)
  }

  lemma UnlinkShifts(was: map<nat, nat>, m: nat)
    requires m >= 2
    ensures ShiftedAbove(was, was - {m - 1}, m, m - 1)
  {
  }

  lemma RenameShifts(was: map<nat, nat>, now: map<nat, nat>, m: nat, i: nat)
    requires 0 < i && i + 1 < m && ShiftedAbove(was, now, m, i + 1)
    ensures ShiftedAbove(was, Moved(now, i), m, i)
  {
    assert At(now, i + 1) == None;
    forall j: nat
      ensures 0 < j < i || j >= m ==> At(Moved(now, i), j) == At(was, j)
      ensures i < j < m ==> At(Moved(now, i), j) == At(was, j - 1)
    {
      MovedAt(now, i, j);
    }
    MovedAt(now, i, i);
  }

  /** While one process holds the lock, another can at most create the missing log file. */
  lemma OthersLeaveArchives(s: State, e: Event, p: nat, j: nat)
    requires Inv(s) && Enabled(s, e) && s.lock == Some(p) && p < |s.procs| && e.p != p && j > 0
    ensures At(Step(s, e).slot, j) == At(s.slot, j)
    ensures Step(s, e).procs[p] == s.procs[p] && Step(s, e).files == s.files
    ensures 0 in s.slot ==> At(Step(s, e).slot, 0) == At(s.slot, 0)
  {
    assert !Holding(s.procs[e.p].pc);
  }

  /** Process p is renaming: the archives above the slot to be renamed next have moved up by one since s0, and the
      others are where they were. */
  ghost predicate Underway(s0: State, s: State, p: nat)
  {
    && p < |s.procs| && s.procs[p].pc.Rename? && s.files == s0.files
    && ShiftedAbove(s0.slot, s.slot, s.files, s.procs[p].pc.i + 1)
    && (0 in s0.slot ==> At(s.slot, 0) == At(s0.slot, 0))
  }

  lemma UnderwayBegins(s: State, p: nat)
    requires s.files >= 2 && p < |s.procs| && s.procs[p].pc.Unlink?
    ensures Underway(s, Call(s, p, true), p)
  {
    UnlinkShifts(s.slot, s.files);
  }

  lemma UnderwayOther(s0: State, s: State, e: Event, p: nat)
    requires Underway(s0, s, p) && Inv(s) && Enabled(s, e) && e.p != p
    ensures Underway(s0, Step(s, e), p)
  {
    assert s.lock == Some(p);
    OthersLeaveArchives(s, e, p, 1);
    forall j: nat | j > 0
      ensures At(Step(s, e).slot, j) == At(s.slot, j)
    {
      OthersLeaveArchives(s, e, p, j);
    }
  }

  lemma UnderwayOwn(s0: State, s: State, p: nat)
    requires Underway(s0, s, p) && Inv(s) && s.procs[p].pc.i > 0
    ensures Underway(s0, Call(s, p, true), p)
  {
    assert Justified(s, s.procs[p]);
    RenameShifts(s0.slot, s.slot, s.files, s.procs[p].pc.i);
  }

  predicate Renaming(s: State, p: nat) { p < |s.procs| && s.procs[p].pc.Rename? }

  lemma UnderwayStep(s0: State, s: State, e: Event, s': State, p: nat)
    requires Underway(s0, s, p) && Inv(s) && Renaming(s', p) && Enabled(s, e) && s' == Step(s, e)
    ensures Underway(s0, s', p)
  {
    if e.p != p {
      UnderwayOther(s0, s, e, p);
    } else if e.Advance? {
      UnderwayOwn(s0, s, p);
    }
  }

  ghost predicate Continues(s: State, s': State, p: nat)
  {
    forall s0 :: Underway(s0, s, p) ==> Underway(s0, s', p)
  }

  lemma StepContinues(states: seq<State>, events: seq<Event>, k: nat, p: nat)
    requires Run(states, events) && k < |events| && Renaming(states[k + 1], p)
    ensures Continues(states[k], states[k + 1], p)
  {
    Reachable(states, events, k);
    var s, e, s' := states[k], events[k], states[k + 1];
    assert Enabled(s, e) && s' == Step(s, e);
    forall s0 | Underway(s0, s, p)
      ensures Underway(s0, s', p)
    {
      UnderwayStep(s0, s, e, s', p);
    }
  }

  lemma {:induction false} ChainContinues(s0: State, states: seq<State>, a: nat, b: nat, p: nat)
    requires a <= b < |states| && Underway(s0, states[a], p)
    requires forall k :: a <= k < b ==> Continues(states[k], states[k + 1], p)
    ensures Underway(s0, states[b], p)
    decreases b
  {
    if a < b {
      ChainContinues(s0, states, a, b - 1, p);
      assert Continues(states[b - 1], states[b - 1 + 1], p);
    }
  }

  lemma FirstUnderway(states: seq<State>, events: seq<Event>, a: nat, p: nat)
    requires Run(states, events) && a < |events| && events[a] == Advance(p, true)
    requires p < |states[a].procs| && states[a].procs[p].pc.Unlink?
    ensures Underway(states[a], states[a + 1], p)
  {
    Reachable(states, events, a);
    UnderwayBegins(states[a], p);
  }

  /** From the unlink that begins a rotation at step a, and as long as the rotation goes on, the archives move up
      one by one, whatever the other processes do in between. */
  lemma RotationShifts(states: seq<State>, events: seq<Event>, a: nat, b: nat, p: nat)
    requires Run(states, events) && a < b < |states| && p < |states[a].procs| && states[a].procs[p].pc.Unlink?
    requires events[a] == Advance(p, true) && (forall k :: a < k <= b ==> Renaming(states[k], p))
    ensures Underway(states[a], states[b], p)
  {
    FirstUnderway(states, events, a, p);
    forall k | a < k < b
      ensures Continues(states[k], states[k + 1], p)
    {
      StepContinues(states, events, k, p);
    }
    ChainContinues(states[a], states, a + 1, b, p);
  }

  lemma NextState(states: seq<State>, events: seq<Event>, k: nat)
    requires Run(states, events) && k < |events|
    ensures Inv(states[k]) && Enabled(states[k], events[k]) && states[k + 1] == Step(states[k], events[k])
  {
    Reachable(states, events, k);
  }

  lemma LastRename(s0: State, s: State, p: nat, i: nat)
    requires Underway(s0, s, p) && Inv(s) && s.procs[p].pc.i == 0 && i + 2 <= s.files
    ensures i > 0 || 0 in s0.slot ==> At(Call(s, p, true).slot, i + 1) == At(s0.slot, i)
    ensures At(Call(s, p, true).slot, 1) == At(s.slot, 0)
    ensures 0 !in Call(s, p, true).slot
  {
    assert Justified(s, s.procs[p]);
    MovedAt(s.slot, 0, i + 1);
    MovedAt(s.slot, 0, 1);
    MovedAt(s.slot, 0, 0);
    assert i > 0 ==> At(s.slot, i + 1) == At(s0.slot, i + 1 - 1);
  }

  /** A completed rotation, interleaved with any steps of other processes, has moved the file in every slot i up to
      max_files-2 to slot i+1, missing ones included.  Only if there was no log file when it began may another
      process have created the one that it moved to slot 1. */
  lemma CompletedRotation(states: seq<State>, events: seq<Event>, a: nat, b: nat, p: nat, i: nat)
    requires Run(states, events) && a < b < |events| && p < |states[a].procs| && states[a].procs[p].pc.Unlink?
    requires events[a] == Advance(p, true) && (forall k :: a < k <= b ==> Renaming(states[k], p))
    requires events[b] == Advance(p, true) && !Renaming(states[b + 1], p) && i + 2 <= states[a].files
    ensures i > 0 || 0 in states[a].slot ==> At(states[b + 1].slot, i + 1) == At(states[a].slot, i)
    ensures At(states[b + 1].slot, 1) == At(states[b].slot, 0) && 0 !in states[b + 1].slot
  {
    RotationShifts(states, events, a, b, p);
    NextState(states, events, b);
    LastRename(states[a], states[b], p, i);
  }
}
