/** What holds in every reachable state of the logging monitor, for any number of user threads and
    rings and every interleaving: placement of rings, delivery order, the sync barrier and the
    absence of lost wakeups. */
module LogMonitorSafety {
  import opened Options
  import opened LogMessages
  import opened RingPool
  import opened LogFlow
  import opened LogMonitor

  // ----- The invariant -----

  /** What the write thread has in hand matches where it is. */
  predicate InHand(g: Shared)
  {
    && (g.normal.pool.held.Some? <==> g.writer.Draining? || g.writer.Writing?)
    && (g.normal.flight != [] ==> g.writer.Writing?)
    && (g.through.flight != [] ==> g.writer.WritingThrough?)
  }

  ghost predicate Flow(g: Shared)
  {
    NormalInv(g.normal) && ThroughInv(g.through) && InHand(g)
  }

  predicate NothingToDo(g: Shared)
  {
    g.normal.pool.locked == [] && g.through.content == [] && !g.rotate
  }

  /** A pass without work has seen, under the mutex, that there is none; a forced rotation was asked for. */
  predicate SeenIdle(g: Shared)
  {
    && (g.writer.Rotating? ==> g.rotate)
    && (g.writer.Popping? && !g.didwork ==> !g.rotate)
    && (g.writer.DrainingThrough? && !g.didwork ==> !g.rotate && g.normal.pool.locked == [])
    && (g.writer.Top? && !g.didwork ==> NothingToDo(g))
    && (g.writer == Waiting(false) ==> NothingToDo(g) && !g.sync)
  }

  /** A thread waiting in sync sees its committed messages become written before the flag clears. */
  predicate SyncPromise(g: Shared, u: User)
    requires Sane(g.normal.pool)
  {
    u.Blocked? && u.task.AwaitSync? ==>
      && u.task.normal <= Committed(g.normal)
      && u.task.through <= CommittedThrough(g.through)
      && (!g.sync ==> u.task.normal <= g.normal.wrote && u.task.through <= g.through.wrote)
  }

  /** No thread sleeps unsignalled while the write thread does. */
  predicate NotForgotten(g: Shared, u: User)
  {
    u.Blocked? && !u.signalled ==>
      && (g.writer == Waiting(false) ==> OnThroughCond(u.task))
      && (u.task.PutThrough? ==> Full(g.through, u.task.m))
  }

  predicate UserInv(g: Shared, u: User)
    requires Sane(g.normal.pool)
  {
    SyncPromise(g, u) && NotForgotten(g, u)
  }

  ghost predicate Inv(s: State)
  {
    && Flow(s.shared) && SeenIdle(s.shared)
    && (forall t :: 0 <= t < |s.users| ==> UserInv(s.shared, s.users[t]))
  }

  lemma InitPlaced(p: Pool)
    requires InitPool(p)
    ensures Placed(p) && Flushed(p) == [] && InActive(p) == []
  {
    assert Distinct(p.idle);
    forall r | 0 <= r < |p.rings|
      ensures InTaggedPlace(p, r)
    {
      assert p.idle[r] == r;
    }
  }

  lemma InitNormal(n: Normal)
    requires InitPool(n.pool) && n == Normal(n.pool, [], [], [], [], [], [])
    ensures NormalInv(n)
  {
    InitPlaced(n.pool);
    assert Stream(n) == [];
    assert Embeds([], [], []);
  }

  lemma InitShared(g: Shared)
    requires NormalInv(g.normal) && g.normal.pool.held.None? && g.normal.flight == []
    requires ThroughInv(g.through) && g.through.flight == [] && g.writer == Starting
    ensures Flow(g) && SeenIdle(g)
  {
  }

  lemma InitThrough(h: Through)
    requires h == Through([], [], [], [])
    ensures ThroughInv(h)
  {
  }

  lemma InitInv(s: State)
    requires Init(s)
    ensures Inv(s)
  {
    InitNormal(s.shared.normal);
    InitThrough(s.shared.through);
    InitShared(s.shared);
    forall t | 0 <= t < |s.users|
      ensures UserInv(s.shared, s.users[t])
    {
      assert s.users[t] == Ready;
    }
  }

  // ----- The write thread keeps it -----

  lemma PopStepInv(n: Normal, w: Writer)
    requires NormalInv(n) && n.pool.held.None? && w.Popping?
    ensures Carries(n, NormalStep(n, w))
  {
    if n.pool.locked != [] {
      PopInv(n);
      assert NormalStep(n, w) == n.(pool := Pop(n.pool));
    } else {
      assert NormalStep(n, w) == n;
    }
  }

  lemma DrainStepInv(n: Normal, w: Writer)
    requires NormalInv(n) && n.pool.held.Some? && n.flight == [] && w.Draining?
    ensures Carries(n, NormalStep(n, w))
  {
    if n.pool.rings[n.pool.held.value] == [] {
      ReleaseInv(n);
      assert NormalStep(n, w) == n.(pool := Release(n.pool));
    } else {
      TakeInv(n);
      assert NormalStep(n, w) == AfterTake(n);
    }
  }

  lemma WriteStepInv(n: Normal, w: Writer)
    requires NormalInv(n) && w.Writing?
    ensures Carries(n, NormalStep(n, w))
  {
    WriteInv(n);
  }

  lemma NormalStepInv(n: Normal, w: Writer)
    requires NormalInv(n) && (n.pool.held.Some? <==> w.Draining? || w.Writing?)
    requires n.flight != [] ==> w.Writing?
    ensures Carries(n, NormalStep(n, w))
  {
    if w.Popping? {
      PopStepInv(n, w);
    } else if w.Draining? {
      DrainStepInv(n, w);
    } else if w.Writing? {
      WriteStepInv(n, w);
    } else {
      assert NormalStep(n, w) == n;
    }
  }

  lemma ThroughStepInv(h: Through, w: Writer)
    requires ThroughInv(h) && (h.flight != [] ==> w.WritingThrough?)
    ensures ThroughInv(ThroughStep(h, w))
    ensures CommittedThrough(ThroughStep(h, w)) == CommittedThrough(h) && h.wrote <= ThroughStep(h, w).wrote
  {
    match w {
      case DrainingThrough => if h.content != [] { ThroughTakeInv(h); }
      case WritingThrough => ThroughWriteInv(h);
      case _ =>
    }
  }

  lemma WriterInHand(g: Shared)
    requires WellFormed(g) && InHand(g)
    ensures InHand(StepWriter(g))
  {
  }

  lemma WriterSeesIdle(g: Shared)
    requires WellFormed(g) && SeenIdle(g)
    ensures SeenIdle(StepWriter(g))
  {
  }

  /** When the sync flag clears, everything committed has been written. */
  lemma IdleMeansWritten(g: Shared)
    requires Sane(g.normal.pool) && InHand(g) && g.writer.Top? && NothingToDo(g)
    ensures Committed(g.normal) == g.normal.wrote
    ensures CommittedThrough(g.through) == g.through.wrote
  {
  }

  predicate SameCommitted(g: Shared, g': Shared)
    requires Sane(g.normal.pool) && Sane(g'.normal.pool)
  {
    && Committed(g'.normal) == Committed(g.normal) && g.normal.wrote <= g'.normal.wrote
    && CommittedThrough(g'.through) == CommittedThrough(g.through) && g.through.wrote <= g'.through.wrote
  }

  lemma WriterSyncPromise(g: Shared, g': Shared, u: User)
    requires Sane(g.normal.pool) && Sane(g'.normal.pool) && InHand(g) && SeenIdle(g) && SyncPromise(g, u)
    requires SameCommitted(g, g') && (g'.sync <==> g.sync && !WakesIdle(g))
    ensures SyncPromise(g', Woken(g, u))
  {
    if WakesIdle(g) {
      IdleMeansWritten(g);
    }
  }

  lemma WriterNotForgotten(g: Shared, u: User)
    requires WellFormed(g) && NotForgotten(g, u)
    ensures NotForgotten(StepWriter(g), Woken(g, u))
  {
  }

  lemma WriterShared(g: Shared)
    requires Flow(g) && SeenIdle(g)
    ensures Flow(StepWriter(g)) && SeenIdle(StepWriter(g)) && SameCommitted(g, StepWriter(g))
  {
    NormalStepInv(g.normal, g.writer);
    ThroughStepInv(g.through, g.writer);
    WriterInHand(g);
    WriterSeesIdle(g);
  }

  lemma WriterUser(g: Shared, u: User)
    requires Flow(g) && SeenIdle(g) && UserInv(g, u)
    ensures Sane(StepWriter(g).normal.pool) && UserInv(StepWriter(g), Woken(g, u))
  {
    WriterShared(g);
    WriterSyncPromise(g, StepWriter(g), u);
    WriterNotForgotten(g, u);
  }

  lemma WriterInv(s: State)
    requires Inv(s)
    ensures Inv(Step(s, WriterStep))
  {
    WriterShared(s.shared);
    var g', s' := StepWriter(s.shared), Step(s, WriterStep);
    assert s'.shared == g' && |s'.users| == |s.users|;
    forall t | 0 <= t < |s'.users|
      ensures UserInv(g', s'.users[t])
    {
      assert UserInv(s.shared, s.users[t]) && s'.users[t] == Woken(s.shared, s.users[t]);
      WriterUser(s.shared, s.users[t]);
    }
  }

  // ----- User threads keep it -----

  /** What a user step may do to the shared state, as far as the other threads can tell. */
  predicate Benign(g: Shared, g': Shared)
    requires Sane(g.normal.pool) && Sane(g'.normal.pool)
  {
    && Committed(g.normal) <= Committed(g'.normal)
    && CommittedThrough(g.through) <= CommittedThrough(g'.through)
    && g'.normal.wrote == g.normal.wrote && g'.through.wrote == g.through.wrote
    && (g.sync ==> g'.sync)
    && (g'.writer == Waiting(false) ==> g.writer == Waiting(false))
    && Total(g.through.content) <= Total(g'.through.content)
  }

  lemma OthersKept(g: Shared, g': Shared, u: User)
    requires Sane(g.normal.pool) && Sane(g'.normal.pool) && Benign(g, g') && UserInv(g, u)
    ensures UserInv(g', u)
  {
  }

  ghost predicate Kept(g: Shared, o: Outcome)
    requires Sane(g.normal.pool)
  {
    Flow(o.shared) && SeenIdle(o.shared) && Benign(g, o.shared) && UserInv(o.shared, o.user)
  }

  lemma ActivatedFlow(n: Normal)
    requires NormalInv(n) && !MustWait(n.pool)
    ensures NormalInv(Activated(n)) && Committed(Activated(n)) == Committed(n)
    ensures Activated(n).wrote == n.wrote && Activated(n).flight == n.flight
    ensures Activated(n).pool.held == n.pool.held && Activated(n).pool.locked == n.pool.locked
  {
    ActivatedInv(n);
  }

  lemma PutThenFlushFlow(n: Normal, m: Message)
    requires NormalInv(n) && n.pool.active.Some?
    ensures NormalInv(AfterFlush(AfterPut(n, m))) && Committed(n) <= Committed(AfterFlush(AfterPut(n, m)))
  {
    PutInv(n, m);
    FlushInv(AfterPut(n, m));
  }

  /** The job keeps the flow in order and takes back nothing that was committed. */
  ghost predicate Extends(n: Normal, n': Normal)
    requires Sane(n.pool)
  {
    NormalInv(n') && Committed(n) <= Committed(n')
  }

  lemma PutJobFlow(n: Normal, job: RingJob)
    requires NormalInv(n) && n.pool.active.Some? && job.PutMessage?
    ensures Extends(n, DoJob(n, job))
  {
    if job.flush {
      PutThenFlushFlow(n, job.m);
    } else {
      PutInv(n, job.m);
    }
  }

  lemma FlushJobFlow(n: Normal, job: RingJob)
    requires NormalInv(n) && n.pool.active.Some? && DoJob(n, job) == AfterFlush(n)
    ensures Extends(n, DoJob(n, job))
  {
    FlushInv(n);
  }

  lemma ClearJobFlow(n: Normal, job: RingJob)
    requires NormalInv(n) && n.pool.active.Some? && DoJob(n, job) == AfterClear(n)
    ensures Extends(n, DoJob(n, job))
  {
    ClearInv(n);
  }

  lemma JobFlow(n: Normal, job: RingJob)
    requires NormalInv(n) && n.pool.active.Some?
    ensures Extends(n, DoJob(n, job))
  {
    if job.PutMessage? {
      PutJobFlow(n, job);
    } else if job.FlushJob? || (job.StartAutoflush? && job.flush) {
      FlushJobFlow(n, job);
    } else {
      ClearJobFlow(n, job);
    }
  }

  lemma JobFrame(n: Normal, job: RingJob)
    requires Sane(n.pool) && n.pool.active.Some?
    ensures DoJob(n, job).wrote == n.wrote && DoJob(n, job).flight == n.flight
    ensures DoJob(n, job).pool.held == n.pool.held
    ensures !Flushes(job) ==> DoJob(n, job).pool.locked == n.pool.locked
  {
  }

  /** The write thread sleeping unsignalled means that some ring is idle or active. */
  lemma NoWaitWhileAsleep(g: Shared)
    requires Placed(g.normal.pool) && InHand(g) && SeenIdle(g)
    requires |g.normal.pool.rings| > 0 && MustWait(g.normal.pool)
    ensures g.writer != Waiting(false)
  {
    assert InTaggedPlace(g.normal.pool, 0);
  }

  /** The new shared state after a job on the active ring, seen from the outside. */
  lemma JobDone(g: Shared, g': Shared, flushed: bool)
    requires Sane(g.normal.pool) && Sane(g'.normal.pool)
    requires InHand(g) && SeenIdle(g) && !HoldsMutex(g.writer)
    requires g'.writer == (if flushed then Signalled(g.writer) else g.writer)
    requires g' == g.(normal := g'.normal, autoflush := g'.autoflush, writer := g'.writer)
    requires Committed(g.normal) <= Committed(g'.normal)
    requires g'.normal.wrote == g.normal.wrote && g'.normal.flight == g.normal.flight
    requires g'.normal.pool.held == g.normal.pool.held
    requires !flushed ==> g'.normal.pool.locked == g.normal.pool.locked
    ensures InHand(g') && SeenIdle(g') && Benign(g, g')
  {
  }

  lemma JobNormal(n: Normal, job: RingJob)
    requires NormalInv(n) && !MustWait(n.pool)
    ensures var n' := DoJob(Activated(n), job);
            && NormalInv(n') && Committed(n) <= Committed(n')
            && n'.wrote == n.wrote && n'.flight == n.flight && n'.pool.held == n.pool.held
            && (!Flushes(job) ==> n'.pool.locked == n.pool.locked)
  {
    ActivatedFlow(n);
    JobFlow(Activated(n), job);
    JobFrame(Activated(n), job);
  }

  lemma JobOnRing(g: Shared, job: RingJob)
    requires Flow(g) && SeenIdle(g) && !HoldsMutex(g.writer)
    requires |g.normal.pool.rings| > 0 && !MustWait(g.normal.pool)
    ensures Kept(g, TryJob(g, job))
  {
    JobNormal(g.normal, job);
    var o := TryJob(g, job);
    assert o.shared.normal == DoJob(Activated(g.normal), job) && o.user == Ready;
    JobDone(g, o.shared, Flushes(job));
  }

  lemma JobKept(g: Shared, job: RingJob)
    requires Flow(g) && SeenIdle(g) && !HoldsMutex(g.writer)
    ensures Kept(g, TryJob(g, job))
  {
    if |g.normal.pool.rings| == 0 {
      JobDone(g, TryJob(g, job).shared, false);
    } else if MustWait(g.normal.pool) {
      NoWaitWhileAsleep(g);
    } else {
      JobOnRing(g, job);
    }
  }

  lemma PutThroughKept(g: Shared, m: Message)
    requires Flow(g) && SeenIdle(g) && !HoldsMutex(g.writer)
    ensures Kept(g, Try(g, PutThrough(m)))
  {
    if !Full(g.through, m) {
      ThroughPutInv(g.through, m);
      TotalAppend(g.through.content, [m]);
    }
  }

  lemma TryKept(g: Shared, task: Task)
    requires Flow(g) && SeenIdle(g) && !HoldsMutex(g.writer)
    requires SyncPromise(g, Blocked(task, false))
    ensures Kept(g, Try(g, task))
  {
    match task {
      case PutThrough(m) => PutThroughKept(g, m);
      case OnRing(job) => JobKept(g, job);
      case AwaitSync(_, _, _) => SyncKept(g, task);
      case AwaitRotate =>
    }
  }

  lemma SyncKept(g: Shared, task: Task)
    requires Flow(g) && SeenIdle(g) && !HoldsMutex(g.writer) && task.AwaitSync?
    requires SyncPromise(g, Blocked(task, false))
    ensures Kept(g, Try(g, task))
  {
    if !g.sync && task.next.Autoflush? && task.next.enable {
      JobKept(g, StartAutoflush(task.next.flush));
      assert Try(g, task) == TryJob(g, StartAutoflush(task.next.flush));
    }
  }

  /** Raising a flag and signalling the write thread. */
  lemma Raised(g: Shared, g': Shared)
    requires Sane(g.normal.pool) && InHand(g) && SeenIdle(g) && !HoldsMutex(g.writer)
    requires g' == g.(sync := g'.sync, rotate := g'.rotate, writer := Signalled(g.writer))
    requires (g.sync ==> g'.sync) && (g.rotate ==> g'.rotate)
    ensures InHand(g') && SeenIdle(g') && Benign(g, g') && g'.writer != Waiting(false)
  {
  }

  lemma RaiseSyncKept(g: Shared, next: AfterSync)
    requires Flow(g) && SeenIdle(g) && !HoldsMutex(g.writer)
    ensures Kept(g, Start(g, Sync(next)))
  {
    Raised(g, RaiseSync(g));
    assert Start(g, Sync(next)).shared == RaiseSync(g);
  }

  lemma RaiseRotateKept(g: Shared)
    requires Flow(g) && SeenIdle(g) && !HoldsMutex(g.writer)
    ensures Kept(g, Start(g, Rotate))
  {
    Raised(g, RaiseRotate(g));
    assert Start(g, Rotate).shared == RaiseRotate(g);
  }

  lemma StartKept(g: Shared, call: Call)
    requires Flow(g) && SeenIdle(g) && !HoldsMutex(g.writer)
    ensures Kept(g, Start(g, call))
  {
    match call {
      case Log(kind, m) =>
        var task := Route(kind, g.autoflush, m);
        if task.Some? { TryKept(g, task.value); }
      case FlushRing => JobKept(g, FlushJob);
      case ClearRing => JobKept(g, ClearJob);
      case Sync(next) => RaiseSyncKept(g, next);
      case Rotate => RaiseRotateKept(g);
    }
  }

  lemma ApplyInv(s: State, t: nat, o: Outcome)
    requires Inv(s) && t < |s.users| && Kept(s.shared, o)
    ensures Inv(Apply(s, t, o))
  {
    forall u | 0 <= u < |s.users| && u != t
      ensures UserInv(o.shared, s.users[u])
    {
      OthersKept(s.shared, o.shared, s.users[u]);
    }
  }

  lemma StepKeeps(s: State, e: Event)
    requires Inv(s) && Enabled(s, e)
    ensures Inv(Step(s, e))
  {
    match e {
      case WriterStep => WriterInv(s);
      case Begin(t, call) =>
        StartKept(s.shared, call);
        ApplyInv(s, t, Start(s.shared, call));
      case Resume(t) =>
        assert UserInv(s.shared, s.users[t]);
        TryKept(s.shared, s.users[t].task);
        ApplyInv(s, t, Try(s.shared, s.users[t].task));
    }
  }

  lemma {:induction false} Reachable(states: seq<State>, events: seq<Event>, i: nat)
    requires Run(states, events) && i < |states|
    ensures Inv(states[i])
  {
    if i == 0 {
      InitInv(states[0]);
    } else {
      Reachable(states, events, i - 1);
      StepKeeps(states[i - 1], events[i - 1]);
    }
  }

  // ----- Main results, for every reachable state -----

  /** Each normal ring is in exactly one of idle queue, active pointer, locked queue and write thread's
      hand; its tag says which, and an idle ring is empty. */
  lemma RingsInOnePlace(states: seq<State>, events: seq<Event>, i: nat, r: nat)
    requires Run(states, events) && i < |states| && r < |states[i].shared.normal.pool.rings|
    ensures var p := states[i].shared.normal.pool;
            && PlacesOf(p, r) == 1
            && |p.tags| == |p.rings|
            && (p.tags[r] == IDLE <==> r in p.idle)
            && (p.tags[r] == ACTIVE <==> p.active == Some(r))
            && (p.tags[r] == LOCKED <==> r in p.locked || p.held == Some(r))
            && (r in p.idle ==> p.rings[r] == [])
  {
    Reachable(states, events, i);
    ExactlyOnePlace(states[i].shared.normal.pool, r);
  }

  /** Written from normal rings, then in flight, then held ring, then locked queue, then active ring:
      always a subsequence of what was put, missing exactly the overwritten and the cleared. */
  lemma DeliveryOrder(states: seq<State>, events: seq<Event>, i: nat)
    requires Run(states, events) && i < |states|
    ensures Sane(states[i].shared.normal.pool)
    ensures var n := states[i].shared.normal;
            var stream := n.wrote + n.flight + (InHeld(n.pool) + Queue(n.pool.rings, n.pool.locked)) + InActive(n.pool);
            && Subsequence(stream, n.put)
            && multiset(n.put) == multiset(stream) + multiset(n.overwritten) + multiset(n.cleared)
            && (n.pool.active.Some? ==> InActive(n.pool) == n.epoch[KeepFrom(n.epoch, n.pool.size)..])
  {
    Reachable(states, events, i);
  }

  /** The write-through ring never drops or reorders: its history is exactly what was written, is in
      flight and is stored. */
  lemma ThroughNeverDrops(states: seq<State>, events: seq<Event>, i: nat)
    requires Run(states, events) && i < |states|
    ensures var h := states[i].shared.through;
            h.put == h.wrote + h.flight + h.content && Total(h.content) < WRTHRU_SIZE
  {
    Reachable(states, events, i);
  }

  lemma ExtendRun(states: seq<State>, events: seq<Event>, e: Event, s': State)
    requires Run(states, events) && WellFormed(states[|events|].shared) && Enabled(states[|events|], e)
    requires s' == Step(states[|events|], e)
    ensures Run(states + [s'], events + [e])
  {
    var ss, es := states + [s'], events + [e];
    assert ss[0] == states[0] && ss[|events|] == states[|events|] && ss[|events| + 1] == s' && es[|events|] == e;
    forall i | 0 <= i < |events|
      ensures WellFormed(ss[i].shared) && Enabled(ss[i], es[i]) && ss[i + 1] == Step(ss[i], es[i])
    {
      assert ss[i] == states[i] && ss[i + 1] == states[i + 1] && es[i] == events[i];
    }
  }

  /** Any enabled event extends the run. */
  lemma RunsContinue(states: seq<State>, events: seq<Event>, e: Event)
    requires Run(states, events) && Enabled(states[|events|], e)
    ensures WellFormed(states[|events|].shared)
    ensures exists s' :: Run(states + [s'], events + [e])
  {
    Reachable(states, events, |events|);
    ExtendRun(states, events, e, Step(states[|events|], e));
  }

  /** While the write thread waits unsignalled there is nothing for it to do, and every user thread
      that is still blocked has been signalled and will not have to wait again when it resumes: nobody
      is left asleep for good. */
  lemma NoLostWakeup(states: seq<State>, events: seq<Event>, i: nat, t: nat)
    requires Run(states, events) && i < |states| && states[i].shared.writer == Waiting(false)
    ensures var g := states[i].shared;
            && g.normal.pool.locked == [] && g.normal.pool.held == None && g.normal.flight == []
            && g.through.content == [] && g.through.flight == []
            && !g.rotate && !g.sync
    ensures t < |states[i].users| && states[i].users[t].Blocked? ==>
              && states[i].users[t].signalled
              && WellFormed(states[i].shared) && Try(states[i].shared, states[i].users[t].task).user == Ready
  {
    Reachable(states, events, i);
    var s := states[i];
    if t < |s.users| {
      assert UserInv(s.shared, s.users[t]);
      if |s.shared.normal.pool.rings| > 0 && MustWait(s.shared.normal.pool) {
        NoWaitWhileAsleep(s.shared);
      }
    }
  }

  predicate InSync(s: State, t: nat)
  {
    t < |s.users| && s.users[t].Blocked? && s.users[t].task.AwaitSync?
  }

  lemma JobIsNoSync(g: Shared, job: RingJob)
    requires WellFormed(g)
    ensures TryJob(g, job).user.Blocked? ==> !TryJob(g, job).user.task.AwaitSync?
  {
  }

  lemma StepKeepsRecord(s: State, e: Event, t: nat)
    requires WellFormed(s.shared) && Enabled(s, e) && InSync(s, t) && InSync(Step(s, e), t)
    ensures Step(s, e).users[t].task == s.users[t].task
  {
    if e.Resume? && e.t == t {
      var next := s.users[t].task.next;
      if next.Autoflush? {
        JobIsNoSync(s.shared, StartAutoflush(next.flush));
      }
    }
  }

  /** While a thread stays in the same sync its record of what was committed stays. */
  lemma {:induction false} SyncRemembers(states: seq<State>, events: seq<Event>, i: nat, j: nat, t: nat,
                                         next: AfterSync)
    requires Run(states, events) && i < j < |states| && events[i] == Begin(t, Sync(next))
    requires forall k :: i < k <= j ==> InSync(states[k], t)
    ensures InSync(states[j], t) && WellFormed(states[i].shared)
    ensures states[j].users[t].task
         == AwaitSync(Committed(states[i].shared.normal), CommittedThrough(states[i].shared.through), next)
    decreases j
  {
    assert states[j] == Step(states[j - 1], events[j - 1]);
    if j > i + 1 {
      SyncRemembers(states, events, i, j - 1, t, next);
      StepKeepsRecord(states[j - 1], events[j - 1], t);
    }
  }

  /** Sync is a barrier: when a sync that thread t began at step i returns at step j, every message that
      was then written, in flight, held, locked or in the write-through ring has been handed to the file
      writer, in that order and before anything committed later. */
  lemma SyncIsBarrier(states: seq<State>, events: seq<Event>, i: nat, j: nat, t: nat, next: AfterSync)
    requires Run(states, events) && i < j < |events| && events[i] == Begin(t, Sync(next))
    requires forall k :: i < k <= j ==> InSync(states[k], t)
    requires events[j] == Resume(t) && !InSync(states[j + 1], t)
    ensures Sane(states[i].shared.normal.pool)
    ensures Committed(states[i].shared.normal) <= states[j].shared.normal.wrote
    ensures CommittedThrough(states[i].shared.through) <= states[j].shared.through.wrote
  {
    Reachable(states, events, j);
    SyncRemembers(states, events, i, j, t, next);
    assert UserInv(states[j].shared, states[j].users[t]);
    assert states[j + 1] == Step(states[j], events[j]);
  }
}
