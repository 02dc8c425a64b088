/** What the calls of user threads do to the messages, told by the calls alone: where a message that is logged goes,
    what a flush, a clear, a change of autoflush and a rotation have done when they return (lib/log.c:1117-1189,
    2318-2530). */
module LogMonitorCalls {
  import opened Options
  import opened LogMessages
  import opened RingPool
  import opened LogFlow
  import opened LogMonitor
  import opened LogMonitorSafety

  predicate Urgent(kind: LogType) { kind in {CRITICAL, WARNING, FAULT} }

  predicate WritesThrough(kind: LogType, autoflush: bool) { autoflush || kind == INTERNAL || kind == MESSAGE }

  // ----- What a call has done when it returns -----

  predicate EndsWith(s: seq<Message>, m: Message) { s != [] && s[|s| - 1] == m }

  /** The message is the newest in the active ring, or the newest of all flushed ones. */
  predicate Stored(n: Normal, n': Normal, m: Message, urgent: bool)
    requires Sane(n.pool) && Sane(n'.pool)
  {
    && n'.put == n.put + [m] && n'.cleared == n.cleared
    && if urgent then Committed(n) <= Committed(n') && EndsWith(Committed(n'), m) && InActive(n'.pool) == []
       else Committed(n') == Committed(n) && EndsWith(InActive(n'.pool), m)
  }

  predicate Flushed1(n: Normal, n': Normal)
    requires Sane(n.pool) && Sane(n'.pool)
  {
    && Committed(n') == Committed(n) + InActive(n.pool) && InActive(n'.pool) == []
    && n'.put == n.put && n'.cleared == n.cleared && n'.overwritten == n.overwritten
  }

  predicate Cleared(n: Normal, n': Normal)
    requires Sane(n.pool) && Sane(n'.pool)
  {
    && Committed(n') == Committed(n) && InActive(n'.pool) == []
    && n'.put == n.put && n'.cleared == n.cleared + InActive(n.pool) && n'.overwritten == n.overwritten
  }

  /** The effect of the step in which a call returns; `auto` is whether autoflush was on when it began. */
  predicate Done(call: Call, auto: bool, g: Shared, g': Shared)
    requires Sane(g.normal.pool) && Sane(g'.normal.pool)
  {
    match call
    case Log(kind, m) =>
      if kind == CONSOLE then g' == g
      else if WritesThrough(kind, auto) then
        && g'.normal == g.normal && g'.autoflush == g.autoflush
        && g'.through.put == g.through.put + [m] && CommittedThrough(g'.through) == CommittedThrough(g.through) + [m]
      else
        g'.through == g.through && g'.autoflush == g.autoflush && Stored(g.normal, g'.normal, m, Urgent(kind))
    case FlushRing => g'.through == g.through && g'.autoflush == g.autoflush && Flushed1(g.normal, g'.normal)
    case ClearRing => g'.through == g.through && g'.autoflush == g.autoflush && Cleared(g.normal, g'.normal)
    case Sync(next) =>
      && g'.through == g.through
      && (match next
          case Return => !g.sync && g'.normal == g.normal && g'.autoflush == g.autoflush
          case Autoflush(enable, flush) =>
            && g'.autoflush == enable
            && if !enable then !g.sync && g'.normal == g.normal
               else if flush then Flushed1(g.normal, g'.normal) else Cleared(g.normal, g'.normal))
    case Rotate => g' == g && !g.rotate
  }

  /** What a thread blocked in the call is waiting to do. */
  predicate Serves(call: Call, auto: bool, task: Task)
  {
    match call
    case Log(kind, m) =>
      && kind != CONSOLE
      && task == if WritesThrough(kind, auto) then PutThrough(m) else OnRing(PutMessage(m, Urgent(kind)))
    case FlushRing => task == OnRing(FlushJob)
    case ClearRing => task == OnRing(ClearJob)
    case Sync(next) =>
      || (task.AwaitSync? && task.next == next)
      || (next.Autoflush? && next.enable && task == OnRing(StartAutoflush(next.flush)))
    case Rotate => task == AwaitRotate
  }

  /** The call returns and has done its work, or it waits to do it and has touched no message. */
  predicate DoneOrWaits(call: Call, auto: bool, g: Shared, o: Outcome)
    requires Sane(g.normal.pool) && Sane(o.shared.normal.pool)
  {
    if o.user.Ready? then Done(call, auto, g, o.shared)
    else
      && Serves(call, auto, o.user.task)
      && o.shared.normal == g.normal && o.shared.through == g.through && o.shared.autoflush == g.autoflush
  }

  // ----- The jobs on the active ring -----

  lemma ActivatedDoes(n: Normal)
    requires Placed(n.pool) && !MustWait(n.pool)
    ensures var n' := Activated(n);
            && Placed(n'.pool) && Committed(n') == Committed(n) && InActive(n'.pool) == InActive(n.pool)
            && n'.put == n.put && n'.cleared == n.cleared && n'.overwritten == n.overwritten
  {
    if n.pool.active.None? {
      ActivatePlaced(n.pool);
      ActivateFlow(n.pool);
    }
  }

  lemma PutDoes(n: Normal, m: Message)
    requires Placed(n.pool) && n.pool.active.Some?
    ensures Placed(AfterPut(n, m).pool) && Stored(n, AfterPut(n, m), m, false)
  {
    var kept := DropUntilFits(InActive(n.pool), |m|, n.pool.size);
    SetPlaced(n.pool, kept + [m]);
    PutParts(n, m, kept);
  }

  lemma FlushDoes(n: Normal)
    requires Placed(n.pool) && n.pool.active.Some?
    ensures Flushed1(n, AfterFlush(n))
  {
    FlushFlow(n.pool);
    Concat3(n.wrote + n.flight, Flushed(n.pool), InActive(n.pool));
  }

  lemma ClearDoes(n: Normal)
    requires Placed(n.pool) && n.pool.active.Some?
    ensures Cleared(n, AfterClear(n))
  {
    SetFlow(n.pool, []);
  }

  lemma PutAndFlushDoes(n: Normal, m: Message)
    requires Placed(n.pool) && n.pool.active.Some?
    ensures Stored(n, AfterFlush(AfterPut(n, m)), m, true)
  {
    PutDoes(n, m);
    FlushDoes(AfterPut(n, m));
  }

  /** What a job does to the normal rings, whichever ring is active. */
  predicate JobDone(job: RingJob, n: Normal, n': Normal)
    requires Sane(n.pool) && Sane(n'.pool)
  {
    match job
    case PutMessage(m, flush) => Stored(n, n', m, flush)
    case FlushJob => Flushed1(n, n')
    case ClearJob => Cleared(n, n')
    case StartAutoflush(flush) => if flush then Flushed1(n, n') else Cleared(n, n')
  }

  lemma JobDoes(n: Normal, job: RingJob)
    requires Placed(n.pool) && n.pool.active.Some?
    ensures JobDone(job, n, DoJob(n, job))
  {
    match job {
      case PutMessage(m, flush) => if flush { PutAndFlushDoes(n, m); } else { PutDoes(n, m); }
      case FlushJob => FlushDoes(n);
      case ClearJob => ClearDoes(n);
      case StartAutoflush(flush) => if flush { FlushDoes(n); } else { ClearDoes(n); }
    }
  }

  lemma JobAfterActivation(job: RingJob, n: Normal, a: Normal, n': Normal)
    requires Sane(n.pool) && Sane(a.pool) && Sane(n'.pool) && JobDone(job, a, n')
    requires Committed(a) == Committed(n) && InActive(a.pool) == InActive(n.pool)
    requires a.put == n.put && a.cleared == n.cleared && a.overwritten == n.overwritten
    ensures JobDone(job, n, n')
  {
  }

  lemma TryJobDoes(g: Shared, job: RingJob)
    requires WellFormed(g) && Placed(g.normal.pool) && |g.normal.pool.rings| > 0
    ensures var o := TryJob(g, job);
            && Sane(o.shared.normal.pool)
            && if o.user.Ready? then
                 && JobDone(job, g.normal, o.shared.normal)
                 && o.shared.through == g.through && o.shared.autoflush == (g.autoflush || job.StartAutoflush?)
               else o.user.task == OnRing(job) && o.shared == g
  {
    if !MustWait(g.normal.pool) {
      var a := Activated(g.normal);
      ActivatedDoes(g.normal);
      JobDoes(a, job);
      JobAfterActivation(job, g.normal, a, DoJob(a, job));
    }
  }

  // ----- One step of a call -----

  lemma TryDoes(g: Shared, call: Call, auto: bool, task: Task)
    requires WellFormed(g) && Placed(g.normal.pool) && |g.normal.pool.rings| > 0 && ThroughInv(g.through)
    requires Serves(call, auto, task)
    ensures Sane(Try(g, task).shared.normal.pool) && DoneOrWaits(call, auto, g, Try(g, task))
  {
    match task {
      case PutThrough(m) => if !Full(g.through, m) { ThroughPutInv(g.through, m); }
      case OnRing(job) => TryJobDoes(g, job);
      case AwaitSync(_, _, next) =>
        if !g.sync && next.Autoflush? && next.enable { TryJobDoes(g, StartAutoflush(next.flush)); }
      case AwaitRotate =>
    }
  }

  lemma StartDoes(g: Shared, call: Call)
    requires WellFormed(g) && Placed(g.normal.pool) && |g.normal.pool.rings| > 0 && ThroughInv(g.through)
    ensures Sane(Start(g, call).shared.normal.pool) && DoneOrWaits(call, g.autoflush, g, Start(g, call))
  {
    match call {
      case Log(kind, m) =>
        if kind != CONSOLE {
          var task := if WritesThrough(kind, g.autoflush) then PutThrough(m) else OnRing(PutMessage(m, Urgent(kind)));
          assert Route(kind, g.autoflush, m) == Some(task);
          TryDoes(g, call, g.autoflush, task);
        }
      case FlushRing => TryJobDoes(g, FlushJob);
      case ClearRing => TryJobDoes(g, ClearJob);
      case Sync(next) =>
      case Rotate =>
    }
  }

  /** Without normal rings only what is written through is kept. */
  lemma WithoutRings(g: Shared, call: Call)
    requires WellFormed(g) && |g.normal.pool.rings| == 0
    requires call.FlushRing? || call.ClearRing? || (call.Log? && !WritesThrough(call.kind, g.autoflush))
    ensures Start(g, call) == Outcome(g, Ready)
  {
  }

  lemma AutoflushWithoutRings(g: Shared, task: Task)
    requires WellFormed(g) && |g.normal.pool.rings| == 0 && !g.sync && task.AwaitSync? && task.next.Autoflush?
    ensures Try(g, task) == Outcome(g.(autoflush := task.next.enable), Ready)
  {
  }

  // ----- Runs -----

  /** When thread t last began a call, among the first i events. */
  function LastBegin(events: seq<Event>, i: nat, t: nat): (k: Option<nat>)
    requires i <= |events|
    ensures k.Some? ==> k.value < i && events[k.value].Begin? && events[k.value].t == t
  {
    if i == 0 then None
    else if events[i - 1].Begin? && events[i - 1].t == t then Some(i - 1)
    else LastBegin(events, i - 1, t)
  }

  predicate SameRings(g: Shared, g': Shared) { |g'.normal.pool.rings| == |g.normal.pool.rings| }

  lemma JobRings(g: Shared, job: RingJob)
    requires WellFormed(g)
    ensures SameRings(g, TryJob(g, job).shared)
  {
  }

  lemma TryRings(g: Shared, task: Task)
    requires WellFormed(g)
    ensures SameRings(g, Try(g, task).shared)
  {
    match task {
      case OnRing(job) => JobRings(g, job);
      case AwaitSync(_, _, next) => if next.Autoflush? { JobRings(g, StartAutoflush(next.flush)); }
      case _ =>
    }
  }

  lemma StartRings(g: Shared, call: Call)
    requires WellFormed(g)
    ensures SameRings(g, Start(g, call).shared)
  {
    match call {
      case Log(kind, m) =>
        var task := Route(kind, g.autoflush, m);
        if task.Some? { TryRings(g, task.value); }
      case FlushRing => JobRings(g, FlushJob);
      case ClearRing => JobRings(g, ClearJob);
      case Sync(next) => assert Start(g, call).shared == RaiseSync(g);
      case Rotate => assert Start(g, call).shared == RaiseRotate(g);
    }
  }

  lemma StepRings(s: State, e: Event)
    requires WellFormed(s.shared) && Enabled(s, e)
    ensures SameRings(s.shared, Step(s, e).shared)
  {
    match e {
      case WriterStep => assert SameRings(s.shared, StepWriter(s.shared));
      case Begin(t, call) => StartRings(s.shared, call);
      case Resume(t) => TryRings(s.shared, s.users[t].task);
    }
  }

  lemma {:induction false} RingsStay(states: seq<State>, events: seq<Event>, i: nat)
    requires Run(states, events) && i < |states|
    ensures SameRings(states[0].shared, states[i].shared)
  {
    if i > 0 {
      RingsStay(states, events, i - 1);
      StepRings(states[i - 1], events[i - 1]);
    }
  }

  /** What holds in a reachable state with rings, as far as the calls need it. */
  predicate Sound(g: Shared)
  {
    WellFormed(g) && Placed(g.normal.pool) && |g.normal.pool.rings| > 0 && ThroughInv(g.through)
  }

  lemma SoundAt(states: seq<State>, events: seq<Event>, i: nat)
    requires Run(states, events) && i < |states| && |states[0].shared.normal.pool.rings| > 0
    ensures Sound(states[i].shared)
  {
    Reachable(states, events, i);
    RingsStay(states, events, i);
  }

  /** Thread t, if blocked, waits to do the work of the call it began last. */
  ghost predicate ServedAt(states: seq<State>, events: seq<Event>, i: nat, t: nat)
    requires i <= |events| < |states|
  {
    var k := LastBegin(events, i, t);
    t < |states[i].users| && states[i].users[t].Blocked? ==>
      k.Some? && Serves(events[k.value].call, states[k.value].shared.autoflush, states[i].users[t].task)
  }

  /** The work of the call that event k begins or resumes is done, or still to do. */
  ghost predicate Worked(states: seq<State>, events: seq<Event>, k: nat, t: nat)
    requires k < |events| < |states|
  {
    var b := LastBegin(events, k + 1, t);
    && b.Some? && t < |states[k + 1].users|
    && Sane(states[k].shared.normal.pool) && Sane(states[k + 1].shared.normal.pool)
    && DoneOrWaits(events[b.value].call, states[b.value].shared.autoflush, states[k].shared,
                   Outcome(states[k + 1].shared, states[k + 1].users[t]))
  }

  lemma BeginWorks(states: seq<State>, events: seq<Event>, k: nat)
    requires Run(states, events) && k < |events| && events[k].Begin? && Sound(states[k].shared)
    ensures Worked(states, events, k, events[k].t)
  {
    StartDoes(states[k].shared, events[k].call);
  }

  lemma ResumeWorks(states: seq<State>, events: seq<Event>, k: nat)
    requires Run(states, events) && k < |events| && events[k].Resume? && Sound(states[k].shared)
    requires ServedAt(states, events, k, events[k].t)
    ensures Worked(states, events, k, events[k].t)
  {
    var t := events[k].t;
    assert Enabled(states[k], events[k]);
    var b := LastBegin(events, k, t).value;
    TryDoes(states[k].shared, events[b].call, states[b].shared.autoflush, states[k].users[t].task);
  }

  lemma OthersStay(s: State, e: Event, t: nat)
    requires WellFormed(s.shared) && Enabled(s, e) && t < |s.users| && (e.WriterStep? || e.t != t)
    ensures t < |Step(s, e).users|
    ensures Step(s, e).users[t].Blocked? <==> s.users[t].Blocked?
    ensures s.users[t].Blocked? ==> Step(s, e).users[t].task == s.users[t].task
  {
  }

  lemma StaysServed(states: seq<State>, events: seq<Event>, k: nat, t: nat)
    requires Run(states, events) && k < |events| && (events[k].WriterStep? || events[k].t != t)
    requires ServedAt(states, events, k, t)
    ensures ServedAt(states, events, k + 1, t)
  {
    assert WellFormed(states[k].shared) && Enabled(states[k], events[k]) && states[k + 1] == Step(states[k], events[k]);
    if t < |states[k + 1].users| {
      OthersStay(states[k], events[k], t);
    }
  }

  lemma EventWorks(states: seq<State>, events: seq<Event>, k: nat, t: nat)
    requires Run(states, events) && k < |events| && |states[0].shared.normal.pool.rings| > 0
    requires !events[k].WriterStep? && events[k].t == t && ServedAt(states, events, k, t)
    ensures Worked(states, events, k, t)
  {
    SoundAt(states, events, k);
    if events[k].Begin? {
      BeginWorks(states, events, k);
    } else {
      ResumeWorks(states, events, k);
    }
  }

  lemma WorkedMeansServed(states: seq<State>, events: seq<Event>, k: nat, t: nat)
    requires k < |events| < |states| && Worked(states, events, k, t)
    ensures ServedAt(states, events, k + 1, t)
  {
  }

  lemma ServedNext(states: seq<State>, events: seq<Event>, k: nat, t: nat)
    requires Run(states, events) && k < |events| && |states[0].shared.normal.pool.rings| > 0
    requires ServedAt(states, events, k, t)
    ensures ServedAt(states, events, k + 1, t)
  {
    if events[k].WriterStep? || events[k].t != t {
      StaysServed(states, events, k, t);
    } else {
      EventWorks(states, events, k, t);
      WorkedMeansServed(states, events, k, t);
    }
  }

  lemma NoneBlockedAtFirst(states: seq<State>, events: seq<Event>, t: nat)
    requires Run(states, events)
    ensures ServedAt(states, events, 0, t)
  {
  }

  lemma {:induction false} AlwaysServed(states: seq<State>, events: seq<Event>, i: nat, t: nat)
    requires Run(states, events) && i < |states| && |states[0].shared.normal.pool.rings| > 0
    ensures ServedAt(states, events, i, t)
  {
    if i == 0 {
      NoneBlockedAtFirst(states, events, t);
    } else {
      AlwaysServed(states, events, i - 1, t);
      ServedNext(states, events, i - 1, t);
    }
  }

  // ----- Main results -----

  /** Event k makes thread t return from the call it began last. */
  predicate Returns(states: seq<State>, events: seq<Event>, k: nat, t: nat)
    requires k < |events| < |states|
  {
    !events[k].WriterStep? && events[k].t == t && t < |states[k + 1].users| && states[k + 1].users[t].Ready?
  }

  /** Whatever happened since a call began, the step in which it returns does its work, all of it and nothing else. */
  lemma CallsDoTheirWork(states: seq<State>, events: seq<Event>, k: nat, t: nat)
    requires Run(states, events) && k < |events| && Returns(states, events, k, t)
    requires |states[0].shared.normal.pool.rings| > 0
    ensures var b := LastBegin(events, k + 1, t);
            && b.Some? && Sane(states[k].shared.normal.pool) && Sane(states[k + 1].shared.normal.pool)
            && Done(events[b.value].call, states[b.value].shared.autoflush, states[k].shared, states[k + 1].shared)
  {
    AlwaysServed(states, events, k, t);
    EventWorks(states, events, k, t);
  }

  /** The message of a log call of the given class that returns at event k. */
  ghost function LoggedAt(states: seq<State>, events: seq<Event>, k: nat, through: bool): seq<Message>
    requires k < |events| < |states|
  {
    if events[k].WriterStep? || !Returns(states, events, k, events[k].t) then []
    else
      var b := LastBegin(events, k + 1, events[k].t);
      if b.None? then []
      else
        match events[b.value].call
        case Log(kind, m) =>
          if kind != CONSOLE && through == WritesThrough(kind, states[b.value].shared.autoflush) then [m] else []
        case _ => []
  }

  ghost function Logged(states: seq<State>, events: seq<Event>, i: nat, through: bool): seq<Message>
    requires i <= |events| < |states|
  {
    if i == 0 then [] else Logged(states, events, i - 1, through) + LoggedAt(states, events, i - 1, through)
  }

  lemma WriterPutsNothing(s: State)
    requires WellFormed(s.shared)
    ensures Step(s, WriterStep).shared.normal.put == s.shared.normal.put
    ensures Step(s, WriterStep).shared.through.put == s.shared.through.put
  {
  }

  ghost predicate Puts(states: seq<State>, events: seq<Event>, k: nat)
    requires k < |events| < |states|
  {
    && states[k + 1].shared.normal.put == states[k].shared.normal.put + LoggedAt(states, events, k, false)
    && states[k + 1].shared.through.put == states[k].shared.through.put + LoggedAt(states, events, k, true)
  }

  lemma WorkPuts(states: seq<State>, events: seq<Event>, k: nat, t: nat)
    requires k < |events| < |states| && !events[k].WriterStep? && events[k].t == t && Worked(states, events, k, t)
    ensures Puts(states, events, k)
  {
  }

  lemma WriterPuts(states: seq<State>, events: seq<Event>, k: nat)
    requires Run(states, events) && k < |events| && events[k].WriterStep?
    ensures Puts(states, events, k)
  {
    assert WellFormed(states[k].shared) && states[k + 1] == Step(states[k], events[k]);
    WriterPutsNothing(states[k]);
  }

  lemma StepPuts(states: seq<State>, events: seq<Event>, k: nat)
    requires Run(states, events) && k < |events| && |states[0].shared.normal.pool.rings| > 0
    ensures Puts(states, events, k)
  {
    if events[k].WriterStep? {
      WriterPuts(states, events, k);
    } else {
      AlwaysServed(states, events, k, events[k].t);
      EventWorks(states, events, k, events[k].t);
      WorkPuts(states, events, k, events[k].t);
    }
  }

  /** What was ever put into the write-through ring, and into the normal rings, is exactly what the log calls of the one
      and of the other class that have returned were given, in the order in which they returned. */
  lemma {:induction false} PutIsLogged(states: seq<State>, events: seq<Event>, i: nat)
    requires Run(states, events) && i < |states| && |states[0].shared.normal.pool.rings| > 0
    ensures states[i].shared.normal.put == Logged(states, events, i, false)
    ensures states[i].shared.through.put == Logged(states, events, i, true)
  {
    if i > 0 {
      PutIsLogged(states, events, i - 1);
      StepPuts(states, events, i - 1);
    }
  }

  lemma StepRotate(s: State, e: Event)
    requires WellFormed(s.shared) && Enabled(s, e) && !Step(s, e).shared.rotate
    ensures !(e.Begin? && e.call == Rotate)
    ensures s.shared.rotate ==> e.WriterStep? && s.shared.writer.Rotating?
  {
  }

  ghost predicate RotatedAt(states: seq<State>, events: seq<Event>, k: nat)
    requires k < |events| < |states|
  {
    events[k] == WriterStep && states[k].shared.writer == Rotating
  }

  /** The flag falls only when the write thread rotates, and is up after a request. */
  ghost predicate FallsRightly(states: seq<State>, events: seq<Event>, k: nat)
    requires k < |events| < |states|
  {
    !states[k + 1].shared.rotate ==>
      && !(events[k].Begin? && events[k].call == Rotate)
      && (states[k].shared.rotate ==> RotatedAt(states, events, k))
  }

  lemma FlagFalls(states: seq<State>, events: seq<Event>, k: nat)
    requires Run(states, events) && k < |events|
    ensures FallsRightly(states, events, k)
  {
    assert WellFormed(states[k].shared) && Enabled(states[k], events[k]) && states[k + 1] == Step(states[k], events[k]);
    if !states[k + 1].shared.rotate {
      StepRotate(states[k], events[k]);
    }
  }

  lemma {:induction false} RotationHappened(states: seq<State>, events: seq<Event>, i: nat, j: nat)
    requires i < j <= |events| < |states| && events[i].Begin? && events[i].call == Rotate
    requires forall k :: i <= k < j ==> FallsRightly(states, events, k)
    requires !states[j].shared.rotate
    ensures exists k :: i < k < j && RotatedAt(states, events, k)
    decreases j
  {
    assert FallsRightly(states, events, j - 1);
    if states[j - 1].shared.rotate {
      assert RotatedAt(states, events, j - 1);
    } else {
      RotationHappened(states, events, i, j - 1);
    }
  }

  lemma RotateWaits(states: seq<State>, events: seq<Event>, k: nat)
    requires Run(states, events) && k < |events| && events[k].Begin? && events[k].call == Rotate
    ensures !Returns(states, events, k, events[k].t)
  {
  }

  /** A forced rotation that returns has seen the write thread rotate since it was called. */
  lemma ForcedRotationHappened(states: seq<State>, events: seq<Event>, k: nat, t: nat)
    requires Run(states, events) && k < |events| && Returns(states, events, k, t)
    requires |states[0].shared.normal.pool.rings| > 0
    requires LastBegin(events, k + 1, t).Some? && events[LastBegin(events, k + 1, t).value].call == Rotate
    ensures exists l :: LastBegin(events, k + 1, t).value < l < k && RotatedAt(states, events, l)
  {
    CallsDoTheirWork(states, events, k, t);
    var b := LastBegin(events, k + 1, t).value;
    forall l | b <= l < k
      ensures FallsRightly(states, events, l)
    {
      FlagFalls(states, events, l);
    }
    if b == k {
      RotateWaits(states, events, k);
    } else {
      RotationHappened(states, events, b, k);
    }
  }
}
