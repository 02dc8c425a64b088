/** What a request to rotate has done when its process is back at work, whatever the other processes did meanwhile
    (lib/log.c:1905-2092): calls that succeed do rotate. */
module LogRotationOutcome {
  import opened Options
  import opened LogFiles
  import opened LogRotation
  import opened LogRotationSafety

  /** The event is not one of process p, or one that goes well. */
  predicate GoesWell(e: Event, p: nat) { e.p == p ==> e.Write? || (e.Advance? && e.ok) }

  predicate Working(s: State, p: nat) { p < |s.procs| && s.procs[p].pc.Running? }

  // ----- From the unlink to the unlock -----

  /** The file that was in slot 0 at s0 is still there and process p has archived nothing yet. */
  predicate Kept(s0: State, s: State, p: nat)
    requires 0 in s0.slot && p < |s0.procs| && p < |s.procs|
  {
    && 0 in s.slot && s.slot[0] == s0.slot[0]
    && s.archived == s0.archived && s.procs[p].log == s0.procs[p].log
  }

  /** It has been archived, once, and is in slot 1. */
  predicate Archived(s0: State, s: State, p: nat, cause: Cause)
    requires 0 in s0.slot && p < |s0.procs| && p < |s.procs|
  {
    && |s.archived| == |s0.archived| + 1 && s.archived[..|s0.archived|] == s0.archived
    && s.archived[|s0.archived|].inode == s0.slot[0] && s.archived[|s0.archived|].cause == cause
    && (s.archived[|s0.archived|].own <==> s0.procs[p].log == Some(s0.slot[0]))
    && 1 in s.slot && s.slot[1] == s0.slot[0]
  }

  /** Slot 0 holds another file, which process p has open. */
  predicate Renewed(s0: State, s: State, p: nat)
    requires 0 in s0.slot && p < |s.procs|
  {
    0 in s.slot && s.slot[0] != s0.slot[0] && s.procs[p].log == Some(s.slot[0])
  }

  /** A rotation has done what it is for. */
  predicate Rotated(s0: State, s: State, p: nat, cause: Cause)
    requires 0 in s0.slot && p < |s0.procs| && p < |s.procs|
  {
    Archived(s0, s, p, cause) && Renewed(s0, s, p)
  }

  predicate Carrying(s0: State, s: State, p: nat, cause: Cause)
    requires 0 in s0.slot && p < |s0.procs|
  {
    && p < |s.procs| && s.files == s0.files
    && match s.procs[p].pc
       case Unlink(c) => c == cause && Kept(s0, s, p)
       case Rename(i, c) => c == cause && Kept(s0, s, p)
       case OpenNew => Archived(s0, s, p, cause)
       case Unlock => Rotated(s0, s, p, cause)
       case _ => false
  }

  lemma OthersArchiveNothing(s: State, e: Event, p: nat)
    requires Inv(s) && Enabled(s, e) && s.lock == Some(p) && p < |s.procs| && e.p != p
    ensures Step(s, e).archived == s.archived && Step(s, e).procs[p] == s.procs[p] && Step(s, e).files == s.files
  {
    assert !Holding(s.procs[e.p].pc);
  }

  lemma CarryOthers(s0: State, s: State, e: Event, p: nat, cause: Cause)
    requires 0 in s0.slot && p < |s0.procs| && Carrying(s0, s, p, cause)
    requires Inv(s) && Enabled(s, e) && e.p != p
    ensures Carrying(s0, Step(s, e), p, cause)
  {
    assert s.lock == Some(p);
    OthersArchiveNothing(s, e, p);
    OthersLeaveArchives(s, e, p, 1);
  }

  lemma LastRenameArchives(s0: State, s: State, p: nat, cause: Cause)
    requires 0 in s0.slot && p < |s0.procs| && p < |s.procs| && s.files >= 2 && s.procs[p].pc == Rename(0, cause)
    requires Kept(s0, s, p)
    ensures Archived(s0, Call(s, p, true), p, cause)
  {
    var s' := Call(s, p, true);
    assert s'.archived == s0.archived + Leaving(s, p, cause);
  }

  lemma OpenRenews(s0: State, s: State, p: nat, cause: Cause)
    requires 0 in s0.slot && p < |s0.procs| && p < |s.procs| && s.files >= 2 && s.procs[p].pc.OpenNew?
    requires Archived(s0, s, p, cause) && NewestFirst(s.slot, |s.size|)
    ensures Rotated(s0, Call(s, p, true), p, cause)
  {
    var s' := Call(s, p, true);
    assert s' == OpenLog(s, p, Unlock);
    assert s.slot[1] < |s.size|;
    if 0 in s.slot {
      assert s.slot[0] > s.slot[1];
    }
  }

  /** The unlink and the other renames leave slot 0 alone. */
  lemma ShiftKeeps(s0: State, s: State, p: nat)
    requires 0 in s0.slot && p < |s0.procs| && p < |s.procs| && s.files >= 2 && Kept(s0, s, p)
    requires s.procs[p].pc.Unlink? || (s.procs[p].pc.Rename? && s.procs[p].pc.i > 0)
    ensures Kept(s0, Call(s, p, true), p) && Call(s, p, true).files == s.files
  {
  }

  lemma CarryOwn(s0: State, s: State, p: nat, cause: Cause)
    requires 0 in s0.slot && p < |s0.procs| && Carrying(s0, s, p, cause) && s.files >= 2
    requires NewestFirst(s.slot, |s.size|) && !s.procs[p].pc.Unlock?
    ensures Carrying(s0, Call(s, p, true), p, cause)
  {
    match s.procs[p].pc {
      case Unlink(c) => ShiftKeeps(s0, s, p);
      case Rename(i, c) => if i > 0 { ShiftKeeps(s0, s, p); } else { LastRenameArchives(s0, s, p, cause); }
      case OpenNew => OpenRenews(s0, s, p, cause);
    }
  }

  /** Steps that go well carry the rotation on, up to the unlock that ends it. */
  lemma CarryStep(s0: State, s: State, e: Event, s': State, p: nat, cause: Cause)
    requires 0 in s0.slot && p < |s0.procs| && Carrying(s0, s, p, cause)
    requires Inv(s) && Enabled(s, e) && GoesWell(e, p) && s' == Step(s, e)
    ensures if Working(s', p) then Rotated(s0, s', p, cause) else Carrying(s0, s', p, cause)
  {
    if e.p != p {
      CarryOthers(s0, s, e, p, cause);
    } else if e.Advance? {
      if !s.procs[p].pc.Unlock? {
        CarryOwn(s0, s, p, cause);
      }
    }
  }

  // ----- Runs -----

  ghost predicate WellBetween(states: seq<State>, events: seq<Event>, a: nat, b: nat, p: nat)
    requires b <= |events| < |states|
  {
    forall k :: a <= k < b ==> GoesWell(events[k], p) && (a < k ==> !Working(states[k], p))
  }

  /** One step of a run, as far as the rotation of process p goes. */
  ghost predicate CarriesOn(s: State, s': State, p: nat)
  {
    forall s0: State, cause: Cause ::
      0 in s0.slot && p < |s0.procs| && Carrying(s0, s, p, cause) ==>
        if Working(s', p) then Rotated(s0, s', p, cause) else Carrying(s0, s', p, cause)
  }

  lemma StepCarriesOn(states: seq<State>, events: seq<Event>, k: nat, p: nat)
    requires Run(states, events) && k < |events| && GoesWell(events[k], p)
    ensures CarriesOn(states[k], states[k + 1], p)
  {
    NextState(states, events, k);
    forall s0: State, cause: Cause | 0 in s0.slot && p < |s0.procs| && Carrying(s0, states[k], p, cause)
      ensures if Working(states[k + 1], p) then Rotated(s0, states[k + 1], p, cause)
              else Carrying(s0, states[k + 1], p, cause)
    {
      CarryStep(s0, states[k], events[k], states[k + 1], p, cause);
    }
  }

  lemma {:induction false} ChainCarries(s0: State, states: seq<State>, a: nat, b: nat, p: nat, cause: Cause)
    requires 0 in s0.slot && p < |s0.procs| && a < b < |states| && Carrying(s0, states[a], p, cause)
    requires forall k :: a <= k < b ==> CarriesOn(states[k], states[k + 1], p)
    requires (forall k :: a < k < b ==> !Working(states[k], p)) && Working(states[b], p)
    ensures Rotated(s0, states[b], p, cause)
    decreases b - a
  {
    assert CarriesOn(states[a], states[a + 1], p);
    if a + 1 < b {
      ChainCarries(s0, states, a + 1, b, p, cause);
    }
  }

  /** From the unlink on, a rotation whose calls succeed archives the file of slot 0, once, and leaves its process with
      a new file open in slot 0. */
  lemma UnlinkRotates(states: seq<State>, events: seq<Event>, c: nat, b: nat, p: nat)
    requires Run(states, events) && c < b < |states| && p < |states[c].procs| && states[c].procs[p].pc.Unlink?
    requires 0 in states[c].slot && WellBetween(states, events, c, b, p) && Working(states[b], p)
    ensures p < |states[b].procs| && Rotated(states[c], states[b], p, states[c].procs[p].pc.cause)
  {
    forall k | c <= k < b
      ensures CarriesOn(states[k], states[k + 1], p)
    {
      StepCarriesOn(states, events, k, p);
    }
    ChainCarries(states[c], states, c, b, p, states[c].procs[p].pc.cause);
  }

  // ----- From the request to the unlink -----

  /** Process p has made no call; its file has not shrunk. */
  predicate Waited(s: State, s': State, p: nat)
  {
    && p < |s.procs| && p < |s'.procs| && s'.procs[p] == s.procs[p]
    && s'.files == s.files && s'.maxSize == s.maxSize
    && (Full(s, s.procs[p].log) ==> Full(s', s.procs[p].log))
  }

  /** Nothing but process q itself is changed among the processes and parameters. */
  predicate Framed(s: State, s': State, q: nat)
  {
    && |s'.procs| == |s.procs| && s'.files == s.files && s'.maxSize == s.maxSize
    && forall p :: 0 <= p < |s.procs| && p != q ==> s'.procs[p] == s.procs[p]
  }

  predicate Opens(pc: Pc) { pc.StartOpen? || pc.Reopen? || pc.OpenNew? }

  predicate ChangesSlots(pc: Pc) { pc.StartPurge? || pc.Unlink? || pc.Rename? }

  lemma OpeningFrame(s: State, q: nat, ok: bool)
    requires s.files >= 2 && q < |s.procs| && Opens(s.procs[q].pc)
    ensures Framed(s, Call(s, q, ok), q)
  {
  }

  lemma SlotsFrame(s: State, q: nat, ok: bool)
    requires s.files >= 2 && q < |s.procs| && ChangesSlots(s.procs[q].pc)
    ensures Framed(s, Call(s, q, ok), q)
  {
  }

  lemma LookFrame(s: State, q: nat, ok: bool)
    requires s.files >= 2 && q < |s.procs| && !Opens(s.procs[q].pc) && !ChangesSlots(s.procs[q].pc)
    ensures Framed(s, Call(s, q, ok), q)
  {
  }

  lemma CallFrame(s: State, q: nat, ok: bool)
    requires s.files >= 2 && q < |s.procs|
    ensures Framed(s, Call(s, q, ok), q)
  {
    if Opens(s.procs[q].pc) {
      OpeningFrame(s, q, ok);
    } else if ChangesSlots(s.procs[q].pc) {
      SlotsFrame(s, q, ok);
    } else {
      LookFrame(s, q, ok);
    }
  }

  predicate SizesKept(s: State, s': State)
  {
    forall f :: 0 <= f < |s.size| ==> f < |s'.size| && s'.size[f] >= s.size[f]
  }

  lemma OpenSizes(s: State, q: nat, pc: Pc)
    requires q < |s.procs|
    ensures SizesKept(s, OpenLog(s, q, pc))
  {
  }

  /** A call creates at most a file. */
  lemma CallSizes(s: State, q: nat, ok: bool)
    requires s.files >= 2 && q < |s.procs|
    ensures SizesKept(s, Call(s, q, ok))
  {
    var pc := s.procs[q].pc;
    if pc.StartOpen? {
      OpenSizes(s, q, StartPurge);
    } else if pc.Reopen? {
      OpenSizes(s, q, if pc.locked then Unlock else Running);
    } else if pc.OpenNew? {
      OpenSizes(s, q, Unlock);
    } else {
      assert Call(s, q, ok).size == s.size;
    }
  }

  lemma CallWaits(s: State, q: nat, ok: bool, p: nat)
    requires s.files >= 2 && q < |s.procs| && p < |s.procs| && q != p
    ensures Waited(s, Call(s, q, ok), p)
  {
    CallFrame(s, q, ok);
    CallSizes(s, q, ok);
  }

  lemma StepWaits(s: State, e: Event, p: nat)
    requires Enabled(s, e) && p < |s.procs| && GoesWell(e, p) && !(e.p == p && e.Advance?)
    ensures Waited(s, Step(s, e), p)
  {
    match e {
      case Advance(q, ok) => CallWaits(s, q, ok, p);
      case Write(q, n) => assert Step(s, e).procs == s.procs;
      case Die(q) => assert Step(s, e).size == s.size;
      case _ => assert Step(s, e).size == s.size;
    }
  }

  lemma WaitsOn(s: State, s1: State, s': State, p: nat)
    requires Waited(s, s1, p) && Waited(s1, s', p)
    ensures Waited(s, s', p)
  {
  }

  lemma StateWaits(states: seq<State>, events: seq<Event>, k: nat, p: nat)
    requires Run(states, events) && k < |events| && p < |states[k].procs| && GoesWell(events[k], p)
    requires events[k] != Advance(p, true)
    ensures Waited(states[k], states[k + 1], p)
  {
    NextState(states, events, k);
    StepWaits(states[k], events[k], p);
  }

  /** The next call of a process that is not at work, and will be by step b. */
  lemma {:induction false} NextCall(states: seq<State>, events: seq<Event>, k: nat, b: nat, p: nat) returns (d: nat)
    requires Run(states, events) && k < b < |states| && p < |states[k].procs| && !Working(states[k], p)
    requires (forall l :: k <= l < b ==> GoesWell(events[l], p)) && Working(states[b], p)
    ensures k <= d < b && events[d] == Advance(p, true) && Waited(states[k], states[d], p)
    decreases b - k
  {
    if events[k] == Advance(p, true) {
      d := k;
    } else {
      StateWaits(states, events, k, p);
      d := NextCall(states, events, k + 1, b, p);
      WaitsOn(states[k], states[k + 1], states[d], p);
    }
  }

  lemma NotAtEnd(states: seq<State>, events: seq<Event>, d: nat, b: nat, p: nat)
    requires d < b < |states| && Working(states[b], p) && !Working(states[d + 1], p)
    ensures d + 1 < b
  {
  }

  /** Rotated since s, at which the lock was taken or the file looked at: nothing of that happened in between. */
  lemma RotatedSince(s: State, s0: State, s': State, p: nat, cause: Cause)
    requires 0 in s.slot && p < |s.procs| && p < |s0.procs| && p < |s'.procs|
    requires s0.slot == s.slot && s0.archived == s.archived && s0.procs[p].log == s.procs[p].log
    requires Rotated(s0, s', p, cause)
    ensures Rotated(s, s', p, cause)
  {
  }

  lemma ForcedLock(states: seq<State>, events: seq<Event>, d: nat, p: nat)
    requires Run(states, events) && d < |events| && events[d] == Advance(p, true)
    requires p < |states[d].procs| && states[d].procs[p].pc == Lock(true)
    ensures var s, s' := states[d], states[d + 1];
            && p < |s'.procs| && s'.procs[p] == s.procs[p].(pc := Unlink(Forced))
            && s'.slot == s.slot && s'.archived == s.archived
  {
    NextState(states, events, d);
  }

  lemma Requested(states: seq<State>, events: seq<Event>, a: nat, p: nat, forced: bool)
    requires Run(states, events) && a < |events| && events[a] == Request(p, forced)
    ensures var s, s' := states[a], states[a + 1];
            && p < |s.procs| && p < |s'.procs| && s.procs[p].pc.Running? && s'.size == s.size && s'.maxSize == s.maxSize
            && (forced || s.maxSize > 0 ==> s'.procs[p] == s.procs[p].(pc := if forced then Lock(true) else Probe))
  {
    NextState(states, events, a);
  }

  /** A forced rotation: the process gets the lock at some step d, and if there is a log file then, it is archived, by
      exactly one entry, and the process is back at work with a new file open in slot 0. */
  lemma ForcedRequestRotates(states: seq<State>, events: seq<Event>, a: nat, b: nat, p: nat) returns (d: nat)
    requires Run(states, events) && a < b < |states| && events[a] == Request(p, true)
    requires Working(states[b], p) && forall k :: a < k < b ==> GoesWell(events[k], p) && !Working(states[k], p)
    ensures a < d < b && p < |states[d].procs| && states[d].procs[p].pc == Lock(true) && events[d] == Advance(p, true)
    ensures 0 in states[d].slot ==> Rotated(states[d], states[b], p, Forced)
  {
    Requested(states, events, a, p, true);
    NotAtEnd(states, events, a, b, p);
    d := NextCall(states, events, a + 1, b, p);
    ForcedLock(states, events, d, p);
    NotAtEnd(states, events, d, b, p);
    if 0 in states[d].slot {
      UnlinkRotates(states, events, d + 1, b, p);
      RotatedSince(states[d], states[d + 1], states[b], p, Forced);
    }
  }

  /** The calls before the unlink of an automatic rotation, for a process that has a log file. */
  lemma ProbeStep(s: State, p: nat)
    requires s.files >= 2 && p < |s.procs| && s.procs[p].pc.Probe?
    ensures Call(s, p, true) == Go(s, p, if Full(s, s.procs[p].log) then FirstStat else Running)
  {
  }

  lemma FirstLook(s: State, p: nat)
    requires s.files >= 2 && p < |s.procs| && s.procs[p].pc.FirstStat? && s.procs[p].log.Some? && Look(s, p) != Other
    ensures Call(s, p, true) == Go(s, p, Lock(false))
  {
  }

  lemma LockStep(s: State, p: nat)
    requires s.files >= 2 && p < |s.procs| && s.procs[p].pc == Lock(false)
    ensures Call(s, p, true).procs == Go(s, p, SecondStat).procs
  {
  }

  lemma SecondLook(s: State, p: nat)
    requires s.files >= 2 && p < |s.procs| && s.procs[p].log.Some? && s.procs[p].pc.SecondStat? && Look(s, p) != Other
    ensures var s' := Call(s, p, true);
            && |s'.procs| == |s.procs| && s'.procs[p] == s.procs[p].(pc := Unlink(Automatic(Look(s, p))))
            && s'.slot == s.slot && s'.archived == s.archived
  {
  }

  lemma OwnCall(states: seq<State>, events: seq<Event>, d: nat, p: nat)
    requires Run(states, events) && d < |events| && events[d] == Advance(p, true) && p < |states[d].procs|
    ensures states[d].files >= 2 && states[d + 1] == Call(states[d], p, true)
  {
    NextState(states, events, d);
  }

  /** An automatic rotation of a file that has reached max_size: it looks at slot 0 at some steps f and, with the lock
      held, g, and if its file is there both times, that is archived, by exactly one entry, and the process is back at
      work with a new file open in slot 0. */
  lemma FullFileRotates(states: seq<State>, events: seq<Event>, a: nat, b: nat, p: nat) returns (f: nat, g: nat)
    requires Run(states, events) && a < b < |states| && events[a] == Request(p, false) && states[a].maxSize > 0
    requires p < |states[a].procs| && states[a].procs[p].log.Some? && states[a].procs[p].log.value < |states[a].size|
    requires states[a].size[states[a].procs[p].log.value] >= states[a].maxSize
    requires Working(states[b], p) && forall k :: a < k < b ==> GoesWell(events[k], p) && !Working(states[k], p)
    ensures a < f < b && p < |states[f].procs| && states[f].procs[p].pc == FirstStat && events[f] == Advance(p, true)
    ensures Look(states[f], p) == Own ==>
              && f < g < b && p < |states[g].procs|
              && states[g].procs[p].pc == SecondStat && events[g] == Advance(p, true)
              && (Look(states[g], p) == Own ==> 0 in states[g].slot && Rotated(states[g], states[b], p, Automatic(Own)))
  {
    Requested(states, events, a, p, false);
    NotAtEnd(states, events, a, b, p);
    var d := NextCall(states, events, a + 1, b, p);
    OwnCall(states, events, d, p);
    ProbeStep(states[d], p);
    NotAtEnd(states, events, d, b, p);
    f := NextCall(states, events, d + 1, b, p);
    OwnCall(states, events, f, p);
    g := f;
    if Look(states[f], p) == Own {
      FirstLook(states[f], p);
      NotAtEnd(states, events, f, b, p);
      g := LockedLook(states, events, f + 1, b, p);
    }
  }

  lemma LockedLook(states: seq<State>, events: seq<Event>, k: nat, b: nat, p: nat) returns (g: nat)
    requires Run(states, events) && k < b < |states| && p < |states[k].procs| && states[k].procs[p].pc == Lock(false)
    requires states[k].procs[p].log.Some?
    requires Working(states[b], p) && forall l :: k <= l < b ==> GoesWell(events[l], p) && !Working(states[l], p)
    ensures k < g < b && p < |states[g].procs| && states[g].procs[p].pc == SecondStat && events[g] == Advance(p, true)
    ensures Look(states[g], p) == Own ==> 0 in states[g].slot && Rotated(states[g], states[b], p, Automatic(Own))
  {
    var d := NextCall(states, events, k, b, p);
    OwnCall(states, events, d, p);
    LockStep(states[d], p);
    NotAtEnd(states, events, d, b, p);
    g := NextCall(states, events, d + 1, b, p);
    OwnCall(states, events, g, p);
    if Look(states[g], p) == Own {
      SecondLook(states[g], p);
      NotAtEnd(states, events, g, b, p);
      UnlinkRotates(states, events, g + 1, b, p);
      RotatedSince(states[g], states[g + 1], states[b], p, Automatic(Own));
    }
  }

  // ----- The other outcomes -----

  /** Whenever a process opens the log, at its start, when its file was replaced or after a rotation, it has the file of
      slot 0 open, which is the one that was there if there was one. */
  lemma OpenedIsCurrent(s: State, p: nat)
    requires Enabled(s, Advance(p, true))
    requires s.procs[p].pc.StartOpen? || s.procs[p].pc.Reopen? || s.procs[p].pc.OpenNew?
    ensures var s' := Step(s, Advance(p, true));
            && 0 in s'.slot && s'.procs[p].log == Some(s'.slot[0])
            && (0 in s.slot ==> s'.slot == s.slot)
            && (0 !in s.slot ==> s'.slot == s.slot[0 := |s.size|] && s'.size == s.size + [0])
  {
  }

  /** An open that fails leaves the process without a log file. */
  lemma FailedOpenLeavesNone(s: State, p: nat)
    requires Enabled(s, Advance(p, false)) && (s.procs[p].pc.Reopen? || s.procs[p].pc.OpenNew?)
    ensures Step(s, Advance(p, false)).procs[p].log == None && Step(s, Advance(p, false)).slot == s.slot
  {
  }

  lemma StartCalls(s: State, p: nat)
    requires s.files >= 2 && p < |s.procs|
    ensures var s', q := Call(s, p, true), s.procs[p];
            && (q.pc.StartLock? ==> s'.procs == s.procs[p := q.(pc := StartOpen)])
            && (q.pc.StartPurge? ==>
                  s'.procs == s.procs[p := q.(pc := Unlock)] && s'.slot == Purged(s.slot, s.files))
            && (q.pc.Unlock? ==> s'.procs == s.procs[p := q.(pc := Running)])
  {
  }

  lemma StartOpenCall(s: State, p: nat)
    requires s.files >= 2 && p < |s.procs| && s.procs[p].pc.StartOpen?
    ensures var s' := Call(s, p, true);
            |s'.procs| == |s.procs| && 0 in s'.slot && s'.procs[p] == Proc(StartPurge, Some(s'.slot[0]))
  {
  }

  /** The slots from max_files on that are left are those behind a gap. */
  ghost predicate PurgedAt(s: State, s': State)
  {
    forall j: nat :: j in s'.slot <==>
                       j in s.slot && (j < s.files || exists k :: s.files <= k < j && k !in s.slot)
  }

  lemma PurgeCall(s: State, p: nat)
    requires s.files >= 2 && p < |s.procs| && s.procs[p].pc.StartPurge?
    ensures PurgedAt(s, Call(s, p, true)) && Call(s, p, true).procs == s.procs[p := s.procs[p].(pc := Unlock)]
  {
    StartCalls(s, p);
    var s' := Call(s, p, true);
    forall j: nat
      ensures j in s'.slot <==> j in s.slot && (j < s.files || exists k :: s.files <= k < j && k !in s.slot)
    {
      PurgedIff(s.slot, s.files, j);
    }
  }

  lemma PurgeStage(states: seq<State>, events: seq<Event>, k: nat, b: nat, p: nat) returns (g: nat)
    requires Run(states, events) && k < b < |states| && p < |states[k].procs| && states[k].procs[p].pc.StartPurge?
    requires Working(states[b], p) && forall l :: k <= l < b ==> GoesWell(events[l], p) && !Working(states[l], p)
    ensures k <= g < b && PurgedAt(states[g], states[g + 1])
    ensures p < |states[b].procs| && states[b].procs[p].log == states[k].procs[p].log
  {
    g := NextCall(states, events, k, b, p);
    OwnCall(states, events, g, p);
    PurgeCall(states[g], p);
    NotAtEnd(states, events, g, b, p);
    Unlocked(states, events, g + 1, b, p);
  }

  lemma OpenStage(states: seq<State>, events: seq<Event>, k: nat, b: nat, p: nat) returns (o: nat, g: nat)
    requires Run(states, events) && k < b < |states| && p < |states[k].procs| && states[k].procs[p].pc.StartOpen?
    requires Working(states[b], p) && forall l :: k <= l < b ==> GoesWell(events[l], p) && !Working(states[l], p)
    ensures k <= o < g < b && PurgedAt(states[g], states[g + 1])
    ensures p < |states[b].procs| && 0 in states[o + 1].slot && states[b].procs[p].log == Some(states[o + 1].slot[0])
  {
    o := NextCall(states, events, k, b, p);
    OwnCall(states, events, o, p);
    StartOpenCall(states[o], p);
    NotAtEnd(states, events, o, b, p);
    g := PurgeStage(states, events, o + 1, b, p);
  }

  lemma Launched(states: seq<State>, events: seq<Event>, a: nat, p: nat)
    requires Run(states, events) && a < |events| && events[a] == Launch(p)
    ensures p < |states[a + 1].procs| && states[a + 1].procs[p].pc == StartLock
  {
    NextState(states, events, a);
  }

  /** A process that starts, and whose calls succeed, opens the file that is in slot 0 at some step o, and purges the
      archives from max_files on at some step g, before it is at work with that file open. */
  lemma StartOpensAndPurges(states: seq<State>, events: seq<Event>, a: nat, b: nat, p: nat) returns (o: nat, g: nat)
    requires Run(states, events) && a < b < |states| && events[a] == Launch(p)
    requires Working(states[b], p) && forall k :: a < k < b ==> GoesWell(events[k], p) && !Working(states[k], p)
    ensures a < o < g < b && PurgedAt(states[g], states[g + 1])
    ensures p < |states[b].procs| && 0 in states[o + 1].slot && states[b].procs[p].log == Some(states[o + 1].slot[0])
  {
    Launched(states, events, a, p);
    NotAtEnd(states, events, a, b, p);
    var l := NextCall(states, events, a + 1, b, p);
    OwnCall(states, events, l, p);
    StartCalls(states[l], p);
    NotAtEnd(states, events, l, b, p);
    o, g := OpenStage(states, events, l + 1, b, p);
  }

  lemma Unlocked(states: seq<State>, events: seq<Event>, k: nat, b: nat, p: nat)
    requires Run(states, events) && k < b < |states| && p < |states[k].procs| && states[k].procs[p].pc.Unlock?
    requires Working(states[b], p) && forall l :: k <= l < b ==> GoesWell(events[l], p) && !Working(states[l], p)
    ensures p < |states[b].procs| && states[b].procs[p].log == states[k].procs[p].log
  {
    var u := NextCall(states, events, k, b, p);
    OwnCall(states, events, u, p);
    StartCalls(states[u], p);
    assert Working(states[u + 1], p);
  }

  /** A process whose file was replaced goes to open the new one, at either look. */
  lemma ReplacedIsReopened(s: State, p: nat)
    requires Enabled(s, Advance(p, true)) && (s.procs[p].pc.FirstStat? || s.procs[p].pc.SecondStat?)
    requires 0 in s.slot && s.procs[p].log != Some(s.slot[0])
    ensures Step(s, Advance(p, true)) == Go(s, p, Reopen(s.procs[p].pc.SecondStat?))
  {
  }
}
