/** The logging monitor comes to rest: left alone, the write thread does what there is to do and goes to sleep, and
    every thread that is blocked in a call can return from it, from every reachable state. */
module LogMonitorProgress {
  import opened Options
  import opened LogMessages
  import opened RingPool
  import opened LogFlow
  import opened LogMonitor
  import opened LogMonitorSafety

  // ----- What the write thread still has to do -----

  function One(b: bool): nat { if b then 1 else 0 }

  /** Taking a message out and writing it are two steps each, as are popping and releasing a ring. */
  function Work(g: Shared): nat
    requires Sane(g.normal.pool)
  {
    3 * |Flushed(g.normal.pool)| + 2 * |g.normal.pool.locked| + One(g.normal.pool.held.Some?) + 3 * |g.through.content|
    + One(g.rotate) + One(g.writer.Writing?) + One(g.writer.WritingThrough?)
  }

  /** How far it is from sleep if there is no work: a pass that did some is followed by one more. */
  function Phase(g: Shared): nat
  {
    match g.writer
    case Popping => if g.didwork then 9 else 4
    case DrainingThrough => if g.didwork then 8 else 3
    case Starting => 8
    case Top => if g.didwork then 7 else 2
    case Waiting(signalled) => if signalled then 7 else 1
    case Body => 6
    case Rotating => 5
    case _ => 0
  }

  predicate Less(g': Shared, g: Shared)
    requires Sane(g.normal.pool) && Sane(g'.normal.pool)
  {
    Work(g') < Work(g) || (Work(g') == Work(g) && Phase(g') < Phase(g))
  }

  lemma PopLess(g: Shared, g': Shared)
    requires Placed(g.normal.pool) && g.normal.pool.locked != [] && g.normal.pool.held.None?
    requires g'.normal.pool == Pop(g.normal.pool) && g'.through == g.through && g'.rotate == g.rotate
    requires g.writer.Popping? && g'.writer.Draining?
    ensures Work(g') < Work(g)
  {
    PopFlow(g.normal.pool);
  }

  lemma ReleaseLess(g: Shared, g': Shared)
    requires Placed(g.normal.pool) && g.normal.pool.held.Some? && g.normal.pool.rings[g.normal.pool.held.value] == []
    requires g'.normal.pool == Release(g.normal.pool) && g'.through == g.through && g'.rotate == g.rotate
    requires g.writer.Draining? && g'.writer.Popping?
    ensures Work(g') < Work(g)
  {
    ReleaseFlow(g.normal.pool);
  }

  lemma TakeLess(g: Shared, g': Shared)
    requires Placed(g.normal.pool) && g.normal.pool.held.Some? && g.normal.pool.rings[g.normal.pool.held.value] != []
    requires g'.normal.pool == Take(g.normal.pool) && g'.through == g.through && g'.rotate == g.rotate
    requires g.writer.Draining? && g'.writer.Writing?
    ensures Work(g') < Work(g)
  {
    TakeFlow(g.normal.pool);
    assert |Flushed(Take(g.normal.pool))| + 1 == |Flushed(g.normal.pool)|;
  }

  /** The steps that leave the rings alone. */
  lemma OtherLess(g: Shared)
    requires WellFormed(g) && !g.writer.Draining? && g.writer != Waiting(false)
    requires g.writer.Popping? ==> g.normal.pool.locked == []
    requires g.writer.Rotating? ==> g.rotate
    ensures StepWriter(g).normal.pool == g.normal.pool && Less(StepWriter(g), g)
  {
  }

  /** Every step of the write thread, unless it sleeps, brings it nearer to sleep. */
  lemma StepLess(g: Shared)
    requires WellFormed(g) && Placed(g.normal.pool) && InHand(g) && SeenIdle(g) && g.writer != Waiting(false)
    ensures Sane(StepWriter(g).normal.pool) && Less(StepWriter(g), g)
  {
    var g', p := StepWriter(g), g.normal.pool;
    if g.writer.Popping? && p.locked != [] {
      PopLess(g, g');
    } else if g.writer.Draining? {
      if p.rings[p.held.value] == [] {
        ReleaseLess(g, g');
      } else {
        TakeLess(g, g');
      }
    } else {
      OtherLess(g);
    }
  }

  /** In every pass the write-through ring's turn comes only when no ring is locked; whatever is locked later waits for
      the next pass, which comes before the write thread sleeps. */
  lemma NormalRingsFirst(g: Shared)
    requires WellFormed(g) && StepWriter(g).writer.DrainingThrough? && !g.writer.WritingThrough?
    ensures g.writer.Popping? && g.normal.pool.locked == []
  {
  }

  // ----- Steps without new calls -----

  /** The events lead from s to s' and none of them begins a call. */
  ghost predicate Leads(s: State, es: seq<Event>, s': State)
    decreases |es|
  {
    if es == [] then s == s'
    else WellFormed(s.shared) && Enabled(s, es[0]) && !es[0].Begin? && Leads(Step(s, es[0]), es[1..], s')
  }

  lemma {:induction false} LeadsOn(s: State, es: seq<Event>, s': State, fs: seq<Event>, s'': State)
    requires Leads(s, es, s') && Leads(s', fs, s'')
    ensures Leads(s, es + fs, s'')
    decreases |es|
  {
    if es == [] {
      assert es + fs == fs;
    } else {
      assert (es + fs)[1..] == es[1..] + fs;
      LeadsOn(Step(s, es[0]), es[1..], s', fs, s'');
    }
  }

  lemma LeadsFirst(s: State, e: Event, es: seq<Event>, s': State)
    requires WellFormed(s.shared) && Enabled(s, e) && !e.Begin? && Leads(Step(s, e), es, s')
    ensures Leads(s, [e] + es, s')
  {
    assert ([e] + es)[1..] == es;
  }

  function Waiters(users: seq<User>): nat
  {
    if users == [] then 0 else One(users[0].Blocked?) + Waiters(users[1..])
  }

  lemma {:induction false} WaitersSame(us: seq<User>, vs: seq<User>)
    requires |us| == |vs| && forall t :: 0 <= t < |us| ==> (us[t].Blocked? <==> vs[t].Blocked?)
    ensures Waiters(us) == Waiters(vs)
  {
    if us != [] {
      WaitersSame(us[1..], vs[1..]);
    }
  }

  lemma {:induction false} OneWaiterLess(us: seq<User>, t: nat)
    requires t < |us| && us[t].Blocked?
    ensures Waiters(us[t := Ready]) + 1 == Waiters(us)
  {
    if t == 0 {
      assert us[0 := Ready][1..] == us[1..];
    } else {
      assert us[t := Ready][1..] == us[1..][t - 1 := Ready];
      OneWaiterLess(us[1..], t - 1);
    }
  }

  lemma {:induction false} SomeWaiter(us: seq<User>) returns (t: nat)
    requires Waiters(us) > 0
    ensures t < |us| && us[t].Blocked?
  {
    if us[0].Blocked? {
      t := 0;
    } else {
      var r := SomeWaiter(us[1..]);
      t := r + 1;
    }
  }

  lemma {:induction false} NoWaiter(us: seq<User>, t: nat)
    requires Waiters(us) == 0 && t < |us|
    ensures us[t] == Ready
  {
    if t > 0 {
      NoWaiter(us[1..], t - 1);
    }
  }

  lemma WriterKeepsWaiters(s: State)
    requires WellFormed(s.shared)
    ensures Waiters(Step(s, WriterStep).users) == Waiters(s.users)
  {
    WaitersSame(s.users, Step(s, WriterStep).users);
  }

  // ----- Rest -----

  /** What is left to do, as one number. */
  function Rank(s: State): nat { if Sane(s.shared.normal.pool) then 10 * Work(s.shared) + Phase(s.shared) else 0 }

  lemma LessRank(s: State, s': State)
    requires Sane(s.shared.normal.pool) && Sane(s'.shared.normal.pool) && Less(s'.shared, s.shared)
    ensures Rank(s') < Rank(s)
  {
  }

  lemma RankFalls(s: State)
    requires WellFormed(s.shared) && Placed(s.shared.normal.pool) && InHand(s.shared) && SeenIdle(s.shared)
    requires s.shared.writer != Waiting(false)
    ensures Rank(Step(s, WriterStep)) < Rank(s)
  {
    StepLess(s.shared);
    LessRank(s, Step(s, WriterStep));
  }

  lemma WriterLeads(s: State)
    requires WellFormed(s.shared)
    ensures Leads(s, [WriterStep], Step(s, WriterStep))
  {
    LeadsFirst(s, WriterStep, [], Step(s, WriterStep));
    assert [WriterStep] + [] == [WriterStep];
  }

  lemma InvParts(s: State)
    requires Inv(s)
    ensures WellFormed(s.shared) && Placed(s.shared.normal.pool) && InHand(s.shared) && SeenIdle(s.shared)
  {
  }

  predicate OnlyWriter(es: seq<Event>) { forall i :: 0 <= i < |es| ==> es[i] == WriterStep }

  /** The write thread alone gets from s to s', and no thread begins or ends a wait. */
  ghost predicate WriterGoes(s: State, s': State)
  {
    Waiters(s'.users) == Waiters(s.users) && exists es :: Leads(s, es, s') && OnlyWriter(es)
  }

  lemma WriterGoesOn(s: State, s1: State, s': State)
    requires WriterGoes(s, s1) && WriterGoes(s1, s')
    ensures WriterGoes(s, s')
  {
    var es :| Leads(s, es, s1) && OnlyWriter(es);
    var fs :| Leads(s1, fs, s') && OnlyWriter(fs);
    LeadsOn(s, es, s1, fs, s');
    assert OnlyWriter(es + fs);
  }

  lemma WriterStays(s: State)
    ensures WriterGoes(s, s)
  {
    assert Leads(s, [], s) && OnlyWriter([]);
  }

  lemma WriterStepGoes(s: State)
    requires WellFormed(s.shared)
    ensures WriterGoes(s, Step(s, WriterStep))
  {
    WriterKeepsWaiters(s);
    WriterLeads(s);
    assert OnlyWriter([WriterStep]);
  }

  lemma WriterAdvances(s: State, s': State)
    requires Inv(s) && s.shared.writer != Waiting(false) && WellFormed(s.shared) && s' == Step(s, WriterStep)
    ensures Inv(s') && WriterGoes(s, s') && Rank(s') < Rank(s)
  {
    StepKeeps(s, WriterStep);
    assert Inv(s');
    InvParts(s);
    RankFalls(s);
    WriterStepGoes(s);
  }

  /** The write thread alone, in finitely many steps, does everything there is to do and goes to sleep. */
  lemma {:induction false} WriterSleeps(s: State, rank: nat) returns (s': State)
    requires Inv(s) && Rank(s) <= rank
    ensures WriterGoes(s, s') && Inv(s') && s'.shared.writer == Waiting(false)
    decreases rank
  {
    if s.shared.writer == Waiting(false) {
      s' := s;
      WriterStays(s);
    } else {
      InvParts(s);
      var s1 := Step(s, WriterStep);
      WriterAdvances(s, s1);
      s' := WriterSleeps(s1, rank - 1);
      WriterGoesOn(s, s1, s');
    }
  }

  /** While the write thread sleeps, a blocked thread that resumes returns from its call. */
  lemma ResumeReturns(s: State, t: nat)
    requires Inv(s) && s.shared.writer == Waiting(false) && t < |s.users| && s.users[t].Blocked?
    ensures Enabled(s, Resume(t)) && Step(s, Resume(t)).users == s.users[t := Ready]
  {
    assert UserInv(s.shared, s.users[t]);
    if |s.shared.normal.pool.rings| > 0 && MustWait(s.shared.normal.pool) {
      NoWaitWhileAsleep(s.shared);
    }
  }

  /** From every state that satisfies the invariant, without any new call, all blocked threads return and the write
      thread goes to sleep with nothing left to do. */
  lemma {:induction false} ComesToRest(s: State) returns (es: seq<Event>, s': State)
    requires Inv(s)
    ensures Leads(s, es, s') && Inv(s') && s'.shared.writer == Waiting(false) && Waiters(s'.users) == 0
    decreases Waiters(s.users)
  {
    s' := WriterSleeps(s, Rank(s));
    es :| Leads(s, es, s') && OnlyWriter(es);
    if Waiters(s'.users) > 0 {
      var t := SomeWaiter(s'.users);
      ResumeReturns(s', t);
      StepKeeps(s', Resume(t));
      OneWaiterLess(s'.users, t);
      var fs, s'' := ComesToRest(Step(s', Resume(t)));
      LeadsFirst(s', Resume(t), fs, s'');
      LeadsOn(s, es, s', [Resume(t)] + fs, s'');
      es, s' := es + ([Resume(t)] + fs), s'';
    }
  }

  /** From every reachable state on, without new calls, there is a way to a state in which no thread is blocked in a
      call, the write thread sleeps, and every message that was flushed or written through has been handed to the
      file writer. */
  lemma EveryCallReturns(states: seq<State>, events: seq<Event>, i: nat) returns (es: seq<Event>, s: State)
    requires Run(states, events) && i < |states|
    ensures Leads(states[i], es, s) && forall k :: 0 <= k < |es| ==> !es[k].Begin?
    ensures forall t :: 0 <= t < |s.users| ==> s.users[t] == Ready
    ensures s.shared.writer == Waiting(false) && Sane(s.shared.normal.pool)
    ensures Committed(s.shared.normal) == s.shared.normal.wrote
    ensures CommittedThrough(s.shared.through) == s.shared.through.wrote
  {
    Reachable(states, events, i);
    es, s := ComesToRest(states[i]);
    NoCalls(states[i], es, s);
    forall t | 0 <= t < |s.users|
      ensures s.users[t] == Ready
    {
      NoWaiter(s.users, t);
    }
    SleepMeansWritten(s.shared);
  }

  lemma {:induction false} NoCalls(s: State, es: seq<Event>, s': State)
    requires Leads(s, es, s')
    ensures forall i :: 0 <= i < |es| ==> !es[i].Begin?
    decreases |es|
  {
    if es != [] {
      NoCalls(Step(s, es[0]), es[1..], s');
      forall i | 0 <= i < |es|
        ensures !es[i].Begin?
      {
        assert i > 0 ==> es[i] == es[1..][i - 1];
      }
    }
  }

  lemma SleepMeansWritten(g: Shared)
    requires Sane(g.normal.pool) && InHand(g) && SeenIdle(g) && g.writer == Waiting(false)
    ensures Committed(g.normal) == g.normal.wrote && CommittedThrough(g.through) == g.through.wrote
  {
  }
}
