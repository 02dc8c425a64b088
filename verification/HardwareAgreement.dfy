/** When the hardware holds the value of the highest-priority request, step by step and over whole
    runs of the power daemon, and what is left when the last client has gone. */
module HardwareAgreement {
  import opened Options
  import opened Priority
  import opened PathRequests
  import opened Arbitration
  import opened ArbitrationSafety
  import opened Credentials

  predicate Agrees(s: State, p: Path)
  {
    p in s.all ==> p in s.hw && s.all[p] != [] && s.hw[p] == s.all[p][0].value
  }

  // ----- One request -----

  /** The request as it will be stamped. */
  function Request(s: State, c: nat, p: Path, v: real): Entry
    requires c in s.clients
  {
    Entry(Client(c), v, s.now + (if NeedsDefault(s, c, p) then 2 else 1))
  }

  /** Whom it competes with, from the state before the request; the first request for a path competes with
      the value found in the hardware. */
  function Competitors(s: State, c: nat, p: Path): seq<Entry>
    requires c in s.clients && p in s.hw
  {
    if p !in s.def && !IsPersistent(s.clients[c]) then [Entry(Default, s.hw[p], s.now + 1)]
    else Rivals(List(s, p), c, IsPersistent(s.clients[c]))
  }

  ghost predicate HeadDecided(attr: Attr, l: seq<Entry>, e: Entry, r: seq<Entry>)
  {
    && l != []
    && (Wins(attr, e, r) ==> l[0] == e)
    && (!Wins(attr, e, r) ==> l[0] == r[0] && Compare(attr, e, r[0]) > 0)
  }

  /** The list that the worker step builds. */
  lemma ListBuilt(s: State, c: nat, p: Path, v: real)
    requires c in s.clients && (p in s.def <==> p in s.all)
    ensures var l := WithRequest(WithDefault(s, c, p, v), c, p, v).all[p];
            var e, d := Request(s, c, p, v), Entry(Default, DefaultValue(s, c, p, v), s.now + 1);
            l == if p !in s.def then Renew(p.attr, Renew(p.attr, [], d), e)
                 else AfterSet(p.attr, s.all[p], d, e, IsPersistent(s.clients[c]))
  {
    var s1 := WithDefault(s, c, p, v);
    var e, d := Request(s, c, p, v), Entry(Default, DefaultValue(s, c, p, v), s.now + 1);
    assert s1.all == if NeedsDefault(s, c, p) then s.all[p := Renew(p.attr, List(s, p), d)] else s.all;
    RequestBuilt(s1, c, p, v, e);
  }

  lemma RequestBuilt(s: State, c: nat, p: Path, v: real, e: Entry)
    requires c in s.clients && e == Entry(Client(c), v, s.now + 1)
    ensures WithRequest(s, c, p, v).all[p] == Renew(p.attr, List(s, p), e)
  {
  }

  lemma ListAfterSet(s: State, c: nat, p: Path, v: real)
    requires Inv(s) && c in s.clients && p in s.hw
    ensures HeadDecided(p.attr, WithRequest(WithDefault(s, c, p, v), c, p, v).all[p],
                        Request(s, c, p, v), Competitors(s, c, p))
  {
    ListBuilt(s, c, p, v);
    var e := Request(s, c, p, v);
    var d := Entry(Default, DefaultValue(s, c, p, v), s.now + 1);
    if p in s.def {
      assert PathInv(s, p);
      SetOutcome(p.attr, s.all[p], s.now, d, e, IsPersistent(s.clients[c]));
    } else if IsPersistent(s.clients[c]) {
      SetOutcome(p.attr, [], s.now, d, e, true);
    } else {
      FirstDefault(p.attr, d);
      SetOutcome(p.attr, [d], s.now + 1, d, e, false);
    }
  }

  lemma WrittenHead(s: State, c: nat, p: Path, e: Entry, r: seq<Entry>, writable: bool)
    requires c in s.clients && p in s.clients[c].changes && s.clients[c].changes[p] == e
    requires p in s.all && p in s.hw && p.attr != OTHER && HeadDecided(p.attr, s.all[p], e, r)
    ensures var s' := Written(s, c, p, writable);
            && s'.all == s.all && p in s'.hw
            && s'.hw[p] == (if Wins(p.attr, e, r) && writable then e.value else s.hw[p])
            && (Compare(p.attr, e, s.all[p][0]) == 0 <==> Wins(p.attr, e, r))
  {
  }

  lemma RequestRecorded(s: State, c: nat, p: Path, v: real)
    requires c in s.clients
    ensures var s2 := WithRequest(WithDefault(s, c, p, v), c, p, v);
            && c in s2.clients && p in s2.clients[c].changes && s2.clients[c].changes[p] == Request(s, c, p, v)
            && s2.hw == s.hw
  {
  }

  lemma WrittenIffWins(s: State, c: nat, p: Path, v: real, readable: bool, writable: bool)
    requires Inv(s) && c in s.clients && p in s.hw && p.attr != OTHER && !DefaultUnreadable(s, c, p, readable)
    ensures var s', e, r := SetStep(s, c, p, v, readable, writable), Request(s, c, p, v), Competitors(s, c, p);
            && p in s'.all && s'.all[p] != [] && p in s'.hw
            && s'.hw[p] == (if Wins(p.attr, e, r) && writable then v else s.hw[p])
            && s'.all[p][0].value == (if Wins(p.attr, e, r) then v else r[0].value)
            && (Compare(p.attr, e, s'.all[p][0]) == 0 <==> Wins(p.attr, e, r))
  {
    ListAfterSet(s, c, p, v);
    RequestRecorded(s, c, p, v);
    var s2 := WithRequest(WithDefault(s, c, p, v), c, p, v);
    WrittenHead(s2, c, p, Request(s, c, p, v), Competitors(s, c, p), writable);
    assert SetStep(s, c, p, v, readable, writable) == Written(s2, c, p, writable);
  }

  /** What the request needs so as not to disturb agreement, known before it: a request that wins needs its write to
      succeed or to be superfluous, one that does not needs a strongest competitor that asks for the value which the
      hardware already holds.  A request refused for want of a default changes nothing. */
  predicate Harmless(s: State, c: nat, p: Path, v: real, readable: bool, writable: bool)
    requires c in s.clients && p in s.hw
  {
    var r := Competitors(s, c, p);
    || DefaultUnreadable(s, c, p, readable)
    || (if Wins(p.attr, Request(s, c, p, v), r) then writable || v == s.hw[p] else r[0].value == s.hw[p])
  }

  /** From a state that agrees, or from any other, a request ends in agreement if and only if it is harmless.  Where
      reads and writes work, that is: it ties with the new head, or the head asks for the value that the hardware held
      before. */
  lemma SetAgreesIff(s: State, c: nat, p: Path, v: real, readable: bool, writable: bool)
    requires Inv(s) && c in s.clients && p in s.hw && p.attr != OTHER
    ensures var s' := SetStep(s, c, p, v, readable, writable);
            && (Agrees(s', p) <==> Harmless(s, c, p, v, readable, writable))
            && (readable && writable ==> p in s'.all && s'.all[p] != [])
            && (readable && writable ==>
                  (Agrees(s', p) <==>
                   Compare(p.attr, Request(s, c, p, v), s'.all[p][0]) == 0 || s'.all[p][0].value == s.hw[p]))
  {
    if !DefaultUnreadable(s, c, p, readable) {
      WrittenIffWins(s, c, p, v, readable, writable);
    }
  }

  /** The head is not the client's to give up: it is another client's, or the default and the request is not
      persistent. */
  predicate LeavesHeadAlone(s: State, c: nat, p: Path)
    requires c in s.clients
  {
    p in s.all && s.all[p] != [] ==>
      s.all[p][0].owner != Client(c) && (s.all[p][0].owner != Default || !IsPersistent(s.clients[c]))
  }

  predicate SafeSet(s: State, c: nat, p: Path, v: real)
    requires c in s.clients && p in s.hw
  {
    LeavesHeadAlone(s, c, p) || Wins(p.attr, Request(s, c, p, v), Competitors(s, c, p))
  }

  /** A request that leaves the head alone, or becomes it, is harmless where writes work. */
  lemma SafeSetHarmless(s: State, c: nat, p: Path, v: real, readable: bool)
    requires Inv(s) && c in s.clients && p in s.hw && Agrees(s, p) && SafeSet(s, c, p, v)
    ensures Harmless(s, c, p, v, readable, true)
  {
    if p in s.all {
      assert PathInv(s, p);
    }
  }

  predicate SameAt(s: State, s': State, q: Path)
  {
    && (q in s'.all <==> q in s.all) && (q in s.all ==> s'.all[q] == s.all[q])
    && (q in s'.def <==> q in s.def) && (q in s.def ==> s'.def[q] == s.def[q])
    && (q in s'.hw <==> q in s.hw) && (q in s.hw ==> s'.hw[q] == s.hw[q])
  }

  lemma DefaultElsewhere(s: State, c: nat, p: Path, v: real, q: Path)
    requires c in s.clients && q != p
    ensures SameAt(s, WithDefault(s, c, p, v), q)
  {
  }

  lemma RequestElsewhere(s: State, c: nat, p: Path, v: real, q: Path, writable: bool)
    requires c in s.clients && q != p
    ensures SameAt(s, Written(WithRequest(s, c, p, v), c, p, writable), q)
  {
  }

  lemma OtherPathsKept(s: State, c: nat, p: Path, v: real, readable: bool, writable: bool, q: Path)
    requires c in s.clients && q != p
    ensures SameAt(s, SetStep(s, c, p, v, readable, writable), q)
  {
    DefaultElsewhere(s, c, p, v, q);
    RequestElsewhere(WithDefault(s, c, p, v), c, p, v, q, writable);
  }

  // ----- A disconnection -----

  /** Whether agreement holds after a rollback, wherever it started: the path was not the client's and agreed before,
      or the new head is written, or the hardware happens to hold its value. */
  predicate RolledBackRightly(s: State, c: nat, writable: set<Path>, p: Path)
    requires c in s.clients && p in s.all && p in s.hw
  {
    var ch, w := s.clients[c].changes, Without(s.all[p], Client(c));
    if p !in ch then Agrees(s, p)
    else w != [] && ((Compare(p.attr, ch[p], w[0]) < 0 && p in writable) || s.hw[p] == w[0].value)
  }

  /** Rolling back a client's requests ends in agreement if and only if that holds. */
  lemma DisconnectAgreesIff(s: State, c: nat, writable: set<Path>, p: Path)
    requires Inv(s) && c in s.clients && p in s.all && p in s.hw
    ensures Agrees(DisconnectStep(s, c, writable), p) <==> RolledBackRightly(s, c, writable, p)
  {
    if p in s.clients[c].changes {
      assert PathInv(s, p);
      assert c in Held(s.clients, p);
    }
  }

  /** Rolling back a client's requests, in whatever order, keeps agreement where writes work. */
  lemma DisconnectAgrees(s: State, c: nat, writable: set<Path>, p: Path)
    requires Inv(s) && c in s.clients && Agrees(s, p) && p.attr != OTHER
    requires p in s.clients[c].changes ==> p in writable
    ensures Agrees(DisconnectStep(s, c, writable), p)
  {
    if p in s.all {
      assert PathInv(s, p);
      var ch := s.clients[c].changes;
      if p in ch {
        assert c in Held(s.clients, p);
        RollbackAgrees(p.attr, s.all[p], s.def[p], Held(s.clients, p), s.now, ch[p], s.hw[p]);
      }
    }
  }

  // ----- Runs -----

  /** An event that does not disturb the agreement of path p. */
  predicate HarmlessEvent(s: State, e: Event, p: Path)
    requires Enabled(s, e) && p in s.hw
  {
    match e
    case Set(c, q, v, readable, writable) =>
      q == p && s.clients[c].role != NOT_SPECIFIED ==> Harmless(s, c, p, v, readable, writable)
    case Disconnect(c, writables) => p in s.all ==> RolledBackRightly(s, c, writables, p)
    case _ => true
  }

  lemma StepKeepsHardware(s: State, e: Event, p: Path)
    requires Enabled(s, e) && p in s.hw
    ensures p in Step(s, e).hw
  {
  }

  /** The event is a request for the path, or takes one away. */
  predicate Touches(s: State, e: Event, p: Path)
    requires Enabled(s, e)
  {
    match e
    case Set(c, q, _, _, _) => q == p && s.clients[c].role != NOT_SPECIFIED
    case Disconnect(c, _) => p in s.clients[c].changes
    case _ => false
  }

  /** An event that touches the path decides its agreement, whatever it was before; any other leaves it. */
  lemma TouchDecides(s: State, e: Event, p: Path)
    requires Inv(s) && Enabled(s, e) && p in s.hw && p.attr != OTHER
    ensures if Touches(s, e, p) then Agrees(Step(s, e), p) <==> HarmlessEvent(s, e, p)
            else Agrees(Step(s, e), p) <==> Agrees(s, p)
  {
    match e {
      case Set(c, q, v, readable, writable) =>
        if s.clients[c].role != NOT_SPECIFIED {
          if q == p {
            SetAgreesIff(s, c, p, v, readable, writable);
          } else {
            OtherPathsKept(s, c, q, v, readable, writable, p);
          }
        }
      case Disconnect(c, writables) =>
        if p in s.all {
          DisconnectAgreesIff(s, c, writables, p);
        }
      case _ =>
    }
  }

  lemma StepAgreesIff(s: State, e: Event, p: Path)
    requires Inv(s) && Enabled(s, e) && p in s.hw && p.attr != OTHER && Agrees(s, p)
    ensures Agrees(Step(s, e), p) <==> HarmlessEvent(s, e, p)
  {
    TouchDecides(s, e, p);
  }

  lemma {:induction false} HardwareStays(states: seq<State>, events: seq<Event>, i: nat, p: Path)
    requires Run(states, events) && i < |states| && p in states[0].hw
    ensures p in states[i].hw
  {
    if i > 0 {
      HardwareStays(states, events, i - 1, p);
      StepKeepsHardware(states[i - 1], events[i - 1], p);
    }
  }

  ghost predicate HarmlessAt(states: seq<State>, events: seq<Event>, k: nat, p: Path)
    requires k < |events| && k < |states|
  {
    Enabled(states[k], events[k]) && p in states[k].hw && HarmlessEvent(states[k], events[k], p)
  }

  lemma RunStepAgreesIff(states: seq<State>, events: seq<Event>, k: nat, p: Path)
    requires Run(states, events) && k < |events| && p in states[0].hw && p.attr != OTHER && Agrees(states[k], p)
    ensures Agrees(states[k + 1], p) <==> HarmlessAt(states, events, k, p)
  {
    Reachable(states, events, k);
    HardwareStays(states, events, k, p);
    StepAgreesIff(states[k], events[k], p);
  }

  lemma {:induction false} HarmlessRun(states: seq<State>, events: seq<Event>, j: nat, i: nat, p: Path)
    requires Run(states, events) && j <= i < |states| && p in states[0].hw && p.attr != OTHER && Agrees(states[j], p)
    requires forall k :: j <= k < i ==> HarmlessAt(states, events, k, p)
    ensures Agrees(states[i], p)
    decreases i
  {
    if j < i {
      HarmlessRun(states, events, j, i - 1, p);
      RunStepAgreesIff(states, events, i - 1, p);
    }
  }

  /** Over every run, from a state that agrees on, the hardware holds the head's value all the time if and only if no
      event disturbs it. */
  lemma RunAgreesIff(states: seq<State>, events: seq<Event>, j: nat, i: nat, p: Path)
    requires Run(states, events) && j <= i < |states| && p in states[0].hw && p.attr != OTHER && Agrees(states[j], p)
    ensures (forall k :: j <= k <= i ==> Agrees(states[k], p)) <==>
            (forall k :: j <= k < i ==> HarmlessAt(states, events, k, p))
  {
    if forall k :: j <= k < i ==> HarmlessAt(states, events, k, p) {
      forall k | j <= k <= i
        ensures Agrees(states[k], p)
      {
        HarmlessRun(states, events, j, k, p);
      }
    }
    if forall k :: j <= k <= i ==> Agrees(states[k], p) {
      forall k | j <= k < i
        ensures HarmlessAt(states, events, k, p)
      {
        assert Agrees(states[k], p) && Agrees(states[k + 1], p);
        RunStepAgreesIff(states, events, k, p);
      }
    }
  }

  // ----- Runs that disagree and recover -----

  ghost predicate TouchesAt(states: seq<State>, events: seq<Event>, k: nat, p: Path)
    requires k < |events| && k < |states|
  {
    Enabled(states[k], events[k]) && Touches(states[k], events[k], p)
  }

  lemma RunTouchDecides(states: seq<State>, events: seq<Event>, k: nat, p: Path)
    requires Run(states, events) && k < |events| && p in states[0].hw && p.attr != OTHER
    ensures if TouchesAt(states, events, k, p) then Agrees(states[k + 1], p) <==> HarmlessAt(states, events, k, p)
            else Agrees(states[k + 1], p) <==> Agrees(states[k], p)
  {
    Reachable(states, events, k);
    HardwareStays(states, events, k, p);
    TouchDecides(states[k], events[k], p);
  }

  /** The last of the first i events that touches the path. */
  ghost function LastTouch(states: seq<State>, events: seq<Event>, i: nat, p: Path): (k: Option<nat>)
    requires i <= |events| && i < |states|
    ensures k.Some? ==> k.value < i && TouchesAt(states, events, k.value, p)
    ensures forall l: nat :: l < i && (k.Some? ==> k.value < l) ==> !TouchesAt(states, events, l, p)
  {
    if i == 0 then None
    else if TouchesAt(states, events, i - 1, p) then Some(i - 1)
    else LastTouch(states, events, i - 1, p)
  }

  /** After every run, hardware and list head of a path agree if and only if nothing ever touched the path, or the last
      event that did was harmless, however much they disagreed before. */
  lemma {:induction false} AgreesIffLastTouch(states: seq<State>, events: seq<Event>, i: nat, p: Path)
    requires Run(states, events) && i < |states| && p in states[0].hw && p.attr != OTHER
    ensures var k := LastTouch(states, events, i, p);
            Agrees(states[i], p) <==> (k.Some? ==> HarmlessAt(states, events, k.value, p))
  {
    if i > 0 {
      AgreesIffLastTouch(states, events, i - 1, p);
      RunTouchDecides(states, events, i - 1, p);
    }
  }

  /** Writes to the path work, and no request for it gives up the head without becoming it. */
  predicate SafeEvent(s: State, e: Event, p: Path)
    requires Enabled(s, e) && p in s.hw
  {
    match e
    case Set(c, q, v, _, writable) =>
      q == p && s.clients[c].role != NOT_SPECIFIED ==> writable && SafeSet(s, c, p, v)
    case Disconnect(c, writables) => p in s.clients[c].changes ==> p in writables
    case _ => true
  }

  ghost predicate SafeAt(states: seq<State>, events: seq<Event>, k: nat, p: Path)
    requires k < |events| && k < |states|
  {
    Enabled(states[k], events[k]) && p in states[k].hw && SafeEvent(states[k], events[k], p)
  }

  lemma SafeEventAgrees(s: State, e: Event, p: Path)
    requires Inv(s) && Enabled(s, e) && p in s.hw && p.attr != OTHER && Agrees(s, p) && SafeEvent(s, e, p)
    ensures Agrees(Step(s, e), p)
  {
    StepAgreesIff(s, e, p);
    if e.Set? && e.p == p && s.clients[e.c].role != NOT_SPECIFIED {
      SafeSetHarmless(s, e.c, p, e.v, e.readable);
    } else if e.Disconnect? {
      DisconnectAgrees(s, e.c, e.writables, p);
    }
  }

  /** From any state in which hardware and list head agree, they do so as long as no request for the path gives up the
      head without becoming it. */
  lemma {:induction false} SafeRunsAgree(states: seq<State>, events: seq<Event>, j: nat, i: nat, p: Path)
    requires Run(states, events) && j <= i < |states| && p in states[0].hw && p.attr != OTHER && Agrees(states[j], p)
    requires forall k :: j <= k < i ==> SafeAt(states, events, k, p)
    ensures Agrees(states[i], p)
    decreases i
  {
    if j < i {
      SafeRunsAgree(states, events, j, i - 1, p);
      Reachable(states, events, i - 1);
      assert SafeAt(states, events, i - 1, p);
      SafeEventAgrees(states[i - 1], events[i - 1], p);
    }
  }

  // ----- When every client has gone -----

  lemma NoClientsLeft(s: State, p: Path)
    requires Inv(s) && s.clients == map[] && p in s.all
    ensures p in s.def && s.all[p] == [s.def[p]]
  {
    assert PathInv(s, p);
    assert Held(s.clients, p) == map[];
    OnlyDefaultLeft(p.attr, s.all[p], s.def[p], map[], s.now);
  }

  /** The last value that a persistent request asked for, among the first i events. */
  ghost function Persisted(events: seq<Event>, i: nat, p: Path): Option<real>
    requires i <= |events|
  {
    if i == 0 then None
    else if FromResourceManager(events, i - 1) && events[i - 1].p == p then Some(events[i - 1].v)
    else Persisted(events, i - 1, p)
  }

  /** The value a path falls back to: the last persistent one, or the one the hardware started with. */
  ghost function Baseline(states: seq<State>, events: seq<Event>, i: nat, p: Path): real
    requires Run(states, events) && i < |states| && p in states[0].hw
  {
    var v := Persisted(events, i, p);
    if v.Some? then v.value else states[0].hw[p]
  }

  /** A path without a default has never been touched; a default is the baseline. */
  ghost predicate BaselineInv(s: State, persisted: Option<real>, hw0: real, p: Path)
  {
    && p in s.hw
    && (p !in s.def ==> persisted == None && s.hw[p] == hw0)
    && (p in s.def ==> s.def[p].value == if persisted.Some? then persisted.value else hw0)
  }

  lemma SetBaseline(s: State, c: nat, p: Path, v: real, readable: bool, writable: bool, persisted: Option<real>,
                    hw0: real)
    requires Inv(s) && c in s.clients && BaselineInv(s, persisted, hw0, p)
    ensures BaselineInv(SetStep(s, c, p, v, readable, writable),
                        if IsPersistent(s.clients[c]) then Some(v) else persisted, hw0, p)
  {
  }

  lemma StepBaseline(s: State, e: Event, persisted: Option<real>, hw0: real, p: Path)
    requires Inv(s) && Enabled(s, e) && BaselineInv(s, persisted, hw0, p)
    ensures BaselineInv(Step(s, e), if e.Set? && e.p == p && IsPersistent(s.clients[e.c]) then Some(e.v) else persisted,
                        hw0, p)
  {
    match e {
      case Set(c, q, v, readable, writable) =>
        if s.clients[c].role != NOT_SPECIFIED {
          if q == p { SetBaseline(s, c, p, v, readable, writable, persisted, hw0); }
          else { OtherPathsKept(s, c, q, v, readable, writable, p); }
        }
      case _ =>
    }
  }

  lemma {:induction false} DefaultIsBaseline(states: seq<State>, events: seq<Event>, i: nat, p: Path)
    requires Run(states, events) && i < |states| && p in states[0].hw
    ensures BaselineInv(states[i], Persisted(events, i, p), states[0].hw[p], p)
  {
    if i == 0 {
    } else {
      DefaultIsBaseline(states, events, i - 1, p);
      Reachable(states, events, i - 1);
      if events[i - 1].Set? {
        PersistentIff(states, events, i - 1);
      }
      StepBaseline(states[i - 1], events[i - 1], Persisted(events, i - 1, p), states[0].hw[p], p);
    }
  }

  /** When no client is connected any more, as after shutdown, every list is just its default, which asks for the last
      persistent value or else the value the hardware started with, whatever happened before.  The hardware holds that
      value if and only if the last event that touched the path, if any, was harmless. */
  lemma DefaultsLeft(states: seq<State>, events: seq<Event>, i: nat, p: Path)
    requires Run(states, events) && i < |states| && p in states[0].hw && states[i].clients == map[]
    ensures p in states[i].hw
    ensures p in states[i].all ==>
              && p in states[i].def && states[i].all[p] == [states[i].def[p]]
              && states[i].def[p].value == Baseline(states, events, i, p)
    ensures p.attr != OTHER ==>
              (states[i].hw[p] == Baseline(states, events, i, p) <==>
               var k := LastTouch(states, events, i, p); k.Some? ==> HarmlessAt(states, events, k.value, p))
  {
    Reachable(states, events, i);
    DefaultIsBaseline(states, events, i, p);
    if p in states[i].all {
      NoClientsLeft(states[i], p);
    }
    if p.attr != OTHER {
      AgreesIffLastTouch(states, events, i, p);
    }
  }

  /** If hardware and list head agreed at some time and no request gave up the head since, the hardware then holds that
      value. */
  lemma LastClientRestores(states: seq<State>, events: seq<Event>, j: nat, i: nat, p: Path)
    requires Run(states, events) && j <= i < |states| && p in states[0].hw && p.attr != OTHER && Agrees(states[j], p)
    requires forall k :: j <= k < i ==> SafeAt(states, events, k, p)
    requires states[i].clients == map[]
    ensures p in states[i].hw && states[i].hw[p] == Baseline(states, events, i, p)
    ensures p in states[i].all ==> p in states[i].def && states[i].all[p] == [states[i].def[p]]
  {
    SafeRunsAgree(states, events, j, i, p);
    DefaultsLeft(states, events, i, p);
    AgreesIffLastTouch(states, events, i, p);
  }
}
