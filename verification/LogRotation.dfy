/** Several processes share one log file and rotate it (lib/log.c:1746-2092).  Every system call is
    one atomic step, so any number of processes interleave between calls; a lock on the control
    file is all that orders them.  A process may die at any point, which releases its lock.  Files
    are known by inode; inodes are numbered in order of creation. */
module LogRotation {
  import opened Options
  import opened LogFiles

  /** What is in slot 0 when an automatic rotation, with the lock held, looks a second time: the file its process
      has open, another one, or none. */
  datatype Seen = Own | Other | Nothing

  datatype Cause = Forced | Automatic(seen: Seen)

  /** Where the write thread of one process is, named after the call it will make next. */
  datatype Pc =
    | Down                        // not started, or dead
    | StartLock | StartOpen | StartPurge
    | Running
    | Probe                       // lseek: has the file reached max_size?
    | FirstStat
    | Reopen(locked: bool)
    | Lock(forced: bool)
    | SecondStat
    | Unlink(cause: Cause)
    | Rename(i: nat, cause: Cause)
    | OpenNew
    | Unlock

  /** The open log file is missing after an open that failed. */
  datatype Proc = Proc(pc: Pc, log: Option<nat>)

  /** An inode that left slot 0, its size at that moment, the cause of the rotation, and whether it is the file that
      the rotating process was writing to. */
  datatype Archive = Archive(inode: nat, size: nat, cause: Cause, own: bool)

  datatype State = State(
    files: nat,                   // max_files, at least two
    maxSize: nat,                 // 0: no automatic rotation
    slot: map<nat, nat>,          // slot number to inode
    size: seq<nat>,               // size of every inode ever created
    lock: Option<nat>,            // holder of the control-file lock
    procs: seq<Proc>,
    archived: seq<Archive>,       // history
    broken: bool,                 // history: some rotation ended between its last rename and its open
    lost: bool,                   // history: one did so with no file in place, and none was created since
    blind: bool)                  // history: some second stat failed although there was a file

  datatype Event =
    | Launch(p: nat)
    | Request(p: nat, forced: bool)
    | Write(p: nat, bytes: nat)
    | Advance(p: nat, ok: bool)
    | Die(p: nat)

  predicate Holding(pc: Pc)
  {
    match pc
    case StartOpen => true
    case StartPurge => true
    case Reopen(locked) => locked
    case SecondStat => true
    case Unlink(_) => true
    case Rename(_, _) => true
    case OpenNew => true
    case Unlock => true
    case _ => false
  }

  predicate Init(s: State)
  {
    && s.files >= 2
    && s.slot == map[] && s.size == [] && s.lock == None && s.archived == [] && !s.broken && !s.lost && !s.blind
    && (forall p :: 0 <= p < |s.procs| ==> s.procs[p] == Proc(Down, None))
  }

  /** open(O_CREAT) of slot 0. */
  function OpenLog(s: State, p: nat, pc: Pc): State
    requires p < |s.procs|
  {
    if 0 in s.slot then s.(procs := s.procs[p := Proc(pc, Some(s.slot[0]))])
    else s.(slot := s.slot[0 := |s.size|], size := s.size + [0], lost := false,
            procs := s.procs[p := Proc(pc, Some(|s.size|))])
  }

  function Go(s: State, p: nat, pc: Pc): State
    requires p < |s.procs|
  {
    s.(procs := s.procs[p := s.procs[p].(pc := pc)])
  }

  /** The old log file is closed before the open that fails. */
  function GoWithoutLog(s: State, p: nat, pc: Pc): State
    requires p < |s.procs|
  {
    s.(procs := s.procs[p := Proc(pc, None)])
  }

  predicate Replaced(s: State, p: nat)
    requires p < |s.procs|
  {
    0 in s.slot && Some(s.slot[0]) != s.procs[p].log
  }

  function Look(s: State, p: nat): Seen
    requires p < |s.procs|
  {
    if 0 !in s.slot then Nothing else if s.procs[p].log == Some(s.slot[0]) then Own else Other
  }

  predicate Full(s: State, log: Option<nat>)
  {
    log.Some? && log.value < |s.size| && s.size[log.value] >= s.maxSize
  }

  /** A rotation ends between its last rename and its open. */
  function Break(s: State): State
  {
    s.(broken := true, lost := s.lost || 0 !in s.slot)
  }

  /** Slots from files on are unlinked until one is missing (lib/log.c:1880-1894). */
  function Purged(slot: map<nat, nat>, i: nat): map<nat, nat>
    decreases |slot|
  {
    if i !in slot then slot
    else
      assert slot.Keys == (slot - {i}).Keys + {i};
      Purged(slot - {i}, i + 1)
  }

  function Leaving(s: State, p: nat, cause: Cause): seq<Archive>
    requires p < |s.procs|
  {
    if 0 !in s.slot then []
    else
      var f := s.slot[0];
      [Archive(f, if f < |s.size| then s.size[f] else 0, cause, s.procs[p].log == Some(f))]
  }

  /** The next call of process p; ok says whether a call that can fail succeeds. */
  function Call(s: State, p: nat, ok: bool): State
    requires p < |s.procs| && s.files >= 2
  {
    match s.procs[p].pc
    case Down => s
    case StartLock => if ok then Go(s, p, StartOpen).(lock := Some(p)) else Go(s, p, Running)
    case StartOpen => if ok then OpenLog(s, p, StartPurge) else Go(s, p, Unlock)
    case StartPurge => if ok then Go(s, p, Unlock).(slot := Purged(s.slot, s.files)) else Go(s, p, Unlock)
    case Running => s
    case Probe => Go(s, p, if Full(s, s.procs[p].log) then FirstStat else Running)
    case FirstStat => Go(s, p, if ok && Replaced(s, p) then Reopen(false) else Lock(false))
    case Reopen(locked) =>
      var next := if locked then Unlock else Running;
      if ok then OpenLog(s, p, next) else GoWithoutLog(s, p, next)
    case Lock(forced) =>
      if ok then Go(s, p, if forced then Unlink(Forced) else SecondStat).(lock := Some(p)) else Go(s, p, Running)
    case SecondStat =>
      if ok && Replaced(s, p) then Go(s, p, Reopen(true))
      else Go(s, p, Unlink(Automatic(Look(s, p)))).(blind := s.blind || (!ok && 0 in s.slot))
    case Unlink(cause) =>
      if ok then Go(s, p, Rename(s.files - 2, cause)).(slot := s.slot - {s.files - 1}) else Go(s, p, Unlock)
    case Rename(i, cause) =>
      if !ok then Go(s, p, Unlock)
      else if i > 0 then Go(s, p, Rename(i - 1, cause)).(slot := Moved(s.slot, i))
      else Go(s, p, OpenNew).(slot := Moved(s.slot, 0), archived := s.archived + Leaving(s, p, cause))
    case OpenNew => if ok then OpenLog(s, p, Unlock) else Break(GoWithoutLog(s, p, Unlock))
    case Unlock => Go(s, p, Running).(lock := None)
  }

  /** A process that dies loses its descriptors, and with them its lock. */
  function Killed(s: State, p: nat): State
    requires p < |s.procs|
  {
    var s' := GoWithoutLog(s, p, Down).(lock := if s.lock == Some(p) then None else s.lock);
    if s.procs[p].pc.OpenNew? then Break(s') else s'
  }

  /** A process without an open log file can be asked for a forced rotation; the size check of an automatic one
      would use the missing file, and is left to Die. */
  predicate Enabled(s: State, e: Event)
  {
    && s.files >= 2 && e.p < |s.procs|
    && var q := s.procs[e.p];
       match e
       case Launch(_) => q.pc.Down?
       case Request(_, forced) => q.pc.Running? && (forced || q.log.Some?)
       case Write(_, _) => q.log.Some? && q.log.value < |s.size|
       case Advance(_, ok) => ok && (q.pc.StartLock? || q.pc.Lock?) ==> s.lock.None?
       case Die(_) => true
  }

  function Step(s: State, e: Event): State
    requires Enabled(s, e)
  {
    match e
    case Launch(p) => Go(s, p, StartLock)
    case Request(p, forced) => Go(s, p, if forced then Lock(true) else if s.maxSize == 0 then Running else Probe)
    case Write(p, n) => s.(size := s.size[s.procs[p].log.value := s.size[s.procs[p].log.value] + n])
    case Advance(p, ok) => Call(s, p, ok)
    case Die(p) => Killed(s, p)
  }

  ghost predicate Run(states: seq<State>, events: seq<Event>)
  {
    && |states| == |events| + 1
    && Init(states[0])
    && (forall i :: 0 <= i < |events| ==> Enabled(states[i], events[i]) && states[i + 1] == Step(states[i], events[i]))
  }
}
