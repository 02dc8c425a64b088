/** The monitor of one logging context (lib/log.c): user threads and one write thread share the
    normal rings, the write-through ring and a few flags under one mutex.

    A step is what one thread does between two points where it releases the mutex.  The write
    thread's passage from one such point to the next is itself cut into small steps; while it holds
    the mutex no user thread can move. */
module LogMonitor {
  import opened Options
  import opened LogMessages
  import opened RingPool
  import opened LogFlow

  datatype LogType =
    | CONSOLE | INTERNAL | MESSAGE | CRITICAL | WARNING | FAULT
    | TRACE1 | TRACE2 | TRACE3 | DEBUG1 | DEBUG2

  datatype AfterSync = Return | Autoflush(enable: bool, flush: bool)

  /** What a user thread does with the mutex held, possibly after waiting. */
  datatype Task =
    | PutThrough(m: Message)
    | OnRing(job: RingJob)
    | AwaitSync(normal: seq<Message>, through: seq<Message>, next: AfterSync)
    | AwaitRotate

  datatype RingJob = PutMessage(m: Message, flush: bool) | FlushJob | ClearJob | StartAutoflush(flush: bool)

  datatype User = Ready | Blocked(task: Task, signalled: bool)

  /** Where the write thread is. */
  datatype Writer =
    | Starting
    | Top
    | Waiting(signalled: bool)
    | Body
    | Rotating
    | Popping
    | Draining
    | Writing
    | DrainingThrough
    | WritingThrough

  predicate HoldsMutex(w: Writer)
  {
    w.Top? || w.Body? || w.Popping? || w.Draining? || w.DrainingThrough?
  }

  /** Everything under the mutex. */
  datatype Shared = Shared(
    normal: Normal,
    through: Through,
    sync: bool,
    rotate: bool,
    autoflush: bool,
    didwork: bool,
    writer: Writer)

  datatype State = State(shared: Shared, users: seq<User>)

  datatype Call =
    | Log(kind: LogType, m: Message)
    | FlushRing
    | ClearRing
    | Sync(next: AfterSync)
    | Rotate

  datatype Event =
    | WriterStep
    | Begin(t: nat, call: Call)
    | Resume(t: nat)

  function AllRings(n: nat): seq<nat> { seq(n, i => i) }

  predicate InitPool(p: Pool)
  {
    && p.size >= MIN_RING_SIZE && |p.tags| == |p.rings|
    && (forall r :: 0 <= r < |p.rings| ==> p.rings[r] == [] && p.tags[r] == IDLE)
    && p.idle == AllRings(|p.rings|) && p.active == None && p.locked == [] && p.held == None
  }

  /** A freshly initialised context (lib/log.c:1482-1513): all rings idle and empty. */
  predicate Init(s: State)
  {
    var g := s.shared;
    && InitPool(g.normal.pool)
    && g == Shared(Normal(g.normal.pool, [], [], [], [], [], []), Through([], [], [], []),
                   false, false, false, g.didwork, Starting)
    && (forall t :: 0 <= t < |s.users| ==> s.users[t] == Ready)
  }

  // ----- Condition variables -----

  predicate OnThroughCond(task: Task) { task.PutThrough? }

  /** g_cond_signal(workcond): only the write thread waits on it. */
  function Signalled(w: Writer): Writer { if w.Waiting? then Waiting(true) else w }

  // ----- The write thread (lib/log.c:2134-2230) -----

  predicate WellFormed(g: Shared)
  {
    Sane(g.normal.pool) && (g.writer.Draining? ==> g.normal.pool.held.Some?)
  }

  /** Where the write thread goes next.  It releases the mutex to wait, to rotate and to write. */
  function NextWriter(g: Shared): Writer
    requires WellFormed(g)
  {
    match g.writer
    case Starting => Top
    case Top => if g.didwork then Body else Waiting(false)
    case Waiting(_) => Body
    case Body => if g.rotate then Rotating else Popping
    case Rotating => Popping
    case Popping => if g.normal.pool.locked == [] then DrainingThrough else Draining
    case Draining => if g.normal.pool.rings[g.normal.pool.held.value] == [] then Popping else Writing
    case Writing => Draining
    case DrainingThrough => if g.through.content == [] then Top else WritingThrough
    case WritingThrough => DrainingThrough
  }

  /** It pops locked rings, takes and writes their messages, and returns drained rings to the idle queue. */
  function NormalStep(n: Normal, w: Writer): (n': Normal)
    requires Sane(n.pool) && (w.Draining? ==> n.pool.held.Some?)
  {
    match w
    case Popping => if n.pool.locked == [] then n else n.(pool := Pop(n.pool))
    case Draining => if n.pool.rings[n.pool.held.value] == [] then n.(pool := Release(n.pool)) else AfterTake(n)
    case Writing => AfterWrite(n)
    case _ => n
  }

  function ThroughStep(h: Through, w: Writer): (h': Through)
  {
    match w
    case DrainingThrough => if h.content == [] then h else ThroughTake(h)
    case WritingThrough => ThroughWrite(h)
    case _ => h
  }

  function WorkDone(g: Shared): bool
    requires WellFormed(g)
  {
    match g.writer
    case Starting => true
    case Body => false
    case Rotating => true
    case Draining => g.didwork || g.normal.pool.rings[g.normal.pool.held.value] == []
    case WritingThrough => true
    case _ => g.didwork
  }

  /** A pass without work clears the sync flag before the write thread waits; a forced rotation clears
      the rotate flag. */
  function StepWriter(g: Shared): (g': Shared)
    requires WellFormed(g)
  {
    Shared(NormalStep(g.normal, g.writer), ThroughStep(g.through, g.writer),
           g.sync && !(g.writer.Top? && !g.didwork), g.rotate && !g.writer.Rotating?,
           g.autoflush, WorkDone(g), NextWriter(g))
  }

  /** Its broadcasts: idlecond when it runs out of work, thrucond whenever it frees space. */
  predicate WakesIdle(g: Shared) { g.writer.Top? && !g.didwork }

  predicate WakesThrough(g: Shared) { g.writer.DrainingThrough? && g.through.content != [] }

  function Woken(g: Shared, u: User): User
  {
    if u.Blocked? && (if OnThroughCond(u.task) then WakesThrough(g) else WakesIdle(g)) then u.(signalled := true) else u
  }

  // ----- User threads -----

  predicate Flushes(job: RingJob)
  {
    job.FlushJob? || (job.PutMessage? && job.flush) || (job.StartAutoflush? && job.flush)
  }

  function DoJob(n: Normal, job: RingJob): (n': Normal)
    requires Sane(n.pool) && n.pool.active.Some?
    ensures Sane(n'.pool)
  {
    match job
    case PutMessage(m, flush) => if flush then AfterFlush(AfterPut(n, m)) else AfterPut(n, m)
    case FlushJob => AfterFlush(n)
    case ClearJob => AfterClear(n)
    case StartAutoflush(flush) => if flush then AfterFlush(n) else AfterClear(n)
  }

  /** A thread's step: the new shared state, and whether it is done or waits. */
  datatype Outcome = Outcome(shared: Shared, user: User)

  /** A job on the active ring.  Without normal rings there never is one, and the job does nothing
      (lib/log.c:1085-1086, 1013, 1123, 1158). */
  function TryJob(g: Shared, job: RingJob): (o: Outcome)
    requires WellFormed(g)
  {
    var auto := g.autoflush || job.StartAutoflush?;
    if |g.normal.pool.rings| == 0 then Outcome(g.(autoflush := auto), Ready)
    else if MustWait(g.normal.pool) then Outcome(g, Blocked(OnRing(job), false))
    else Outcome(g.(normal := DoJob(Activated(g.normal), job), autoflush := auto,
                    writer := if Flushes(job) then Signalled(g.writer) else g.writer), Ready)
  }

  function SyncReturns(g: Shared, next: AfterSync): (o: Outcome)
    requires WellFormed(g)
  {
    match next
    case Return => Outcome(g, Ready)
    case Autoflush(true, flush) => TryJob(g, StartAutoflush(flush))
    case Autoflush(false, _) => Outcome(g.(autoflush := false), Ready)
  }

  /** Runs a task until it is done or has to wait. */
  function Try(g: Shared, task: Task): (o: Outcome)
    requires WellFormed(g)
  {
    match task
    case PutThrough(m) =>
      if Full(g.through, m) then Outcome(g, Blocked(task, false))
      else Outcome(g.(through := ThroughPut(g.through, m), writer := Signalled(g.writer)), Ready)
    case OnRing(job) => TryJob(g, job)
    case AwaitSync(_, _, next) => if g.sync then Outcome(g, Blocked(task, false)) else SyncReturns(g, next)
    case AwaitRotate => Outcome(g, if g.rotate then Blocked(task, false) else Ready)
  }

  /** Where pmlog_message_ctx sends a message (lib/log.c:2389-2472). */
  function Route(kind: LogType, autoflush: bool, m: Message): Option<Task>
  {
    if kind == CONSOLE then None
    else if autoflush || kind == INTERNAL || kind == MESSAGE then Some(PutThrough(m))
    else Some(OnRing(PutMessage(m, kind == CRITICAL || kind == WARNING || kind == FAULT)))
  }

  function RaiseSync(g: Shared): Shared { g.(sync := true, writer := Signalled(g.writer)) }

  function RaiseRotate(g: Shared): Shared { g.(rotate := true, writer := Signalled(g.writer)) }

  /** A call on an idle thread.  A sync remembers what was committed when it was called
      (lib/log.c:1175-1189). */
  function Start(g: Shared, call: Call): (o: Outcome)
    requires WellFormed(g)
  {
    match call
    case Log(kind, m) =>
      var task := Route(kind, g.autoflush, m);
      if task.None? then Outcome(g, Ready) else Try(g, task.value)
    case FlushRing => TryJob(g, FlushJob)
    case ClearRing => TryJob(g, ClearJob)
    case Sync(next) => Try(RaiseSync(g), AwaitSync(Committed(g.normal), CommittedThrough(g.through), next))
    case Rotate => Try(RaiseRotate(g), AwaitRotate)
  }

  // ----- Runs -----

  predicate Enabled(s: State, e: Event)
  {
    match e
    case WriterStep => true
    case Begin(t, _) => !HoldsMutex(s.shared.writer) && t < |s.users| && s.users[t].Ready?
    case Resume(t) => !HoldsMutex(s.shared.writer) && t < |s.users| && s.users[t].Blocked?
  }

  function Apply(s: State, t: nat, o: Outcome): State
    requires t < |s.users|
  {
    State(o.shared, s.users[t := o.user])
  }

  function Step(s: State, e: Event): (s': State)
    requires WellFormed(s.shared) && Enabled(s, e)
    ensures |s'.users| == |s.users|
  {
    match e
    case WriterStep =>
      State(StepWriter(s.shared), seq(|s.users|, t requires 0 <= t < |s.users| => Woken(s.shared, s.users[t])))
    case Begin(t, call) => Apply(s, t, Start(s.shared, call))
    case Resume(t) => Apply(s, t, Try(s.shared, s.users[t].task))
  }

  /** A run: from an initial state, each state follows from the one before by an enabled event.
      Waiting threads may resume at any time, signalled or not. */
  ghost predicate Run(states: seq<State>, events: seq<Event>)
  {
    && |states| == |events| + 1
    && Init(states[0])
    && (forall i :: 0 <= i < |events| ==>
          && WellFormed(states[i].shared) && Enabled(states[i], events[i])
          && states[i + 1] == Step(states[i], events[i]))
  }
}
