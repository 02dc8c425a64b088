/** A run of the power daemon after which nobody is connected and the hardware still holds a value that only a client
    long gone ever asked for: the client set a strict limit, gave up the head by setting a weaker one, and left. */
module StrandedValue {
  import opened Priority
  import opened PathRequests
  import opened Arbitration
  import opened HardwareAgreement

  const LIMIT := Path("scaling_max_freq", FREQ_LIMIT_MAX)
  const FOUND := Entry(Default, 3.0, 1)
  const STRICT := Entry(Client(7), 1.0, 2)
  const WEAK := Entry(Client(7), 5.0, 3)

  function Booted(): State { State(map[], map[], map[], map[LIMIT := 3.0], 0) }

  function Connected(role: Role): State { Booted().(clients := map[7 := Info(1, role, map[])]) }

  /** After the strict and after the weak request. */
  function Limited(list: seq<Entry>, e: Entry): State
  {
    State(map[LIMIT := list], map[LIMIT := FOUND], map[7 := Info(1, ROLE_OTHER, map[LIMIT := e])],
          map[LIMIT := 1.0], e.time)
  }

  function Deserted(): State { State(map[LIMIT := [FOUND]], map[LIMIT := FOUND], map[], map[LIMIT := 1.0], 3) }

  function Recorded(): State
  {
    Connected(ROLE_OTHER).(all := map[LIMIT := [FOUND]], def := map[LIMIT := FOUND], now := 1)
  }

  lemma DefaultRecorded()
    ensures WithDefault(Connected(ROLE_OTHER), 7, LIMIT, 1.0) == Recorded()
  {
    FirstDefault(LIMIT.attr, FOUND);
    var s := WithDefault(Connected(ROLE_OTHER), 7, LIMIT, 1.0);
    assert s.all == map[LIMIT := [FOUND]];
    assert s.def == map[LIMIT := FOUND];
  }

  lemma StrictRequest()
    ensures SetStep(Connected(ROLE_OTHER), 7, LIMIT, 1.0, true, true) == Limited([STRICT, FOUND], STRICT)
  {
    DefaultRecorded();
    var s := WithRequest(Recorded(), 7, LIMIT, 1.0);
    assert Without([FOUND], Client(7)) == [FOUND];
    assert Insert(LIMIT.attr, [FOUND], STRICT) == [STRICT, FOUND];
    RequestBuilt(Recorded(), 7, LIMIT, 1.0, STRICT);
    assert s.all == map[LIMIT := [STRICT, FOUND]];
    assert s.clients == map[7 := Info(1, ROLE_OTHER, map[LIMIT := STRICT])];
    assert Written(s, 7, LIMIT, true).hw == map[LIMIT := 1.0];
  }

  lemma WeakRequest()
    ensures SetStep(Limited([STRICT, FOUND], STRICT), 7, LIMIT, 5.0, true, true) == Limited([FOUND, WEAK], WEAK)
  {
    var s := Limited([STRICT, FOUND], STRICT);
    assert WithDefault(s, 7, LIMIT, 5.0) == s;
    var s2 := WithRequest(s, 7, LIMIT, 5.0);
    assert Without([STRICT, FOUND], Client(7)) == [FOUND];
    assert Insert(LIMIT.attr, [FOUND], WEAK) == [FOUND, WEAK];
    RequestBuilt(s, 7, LIMIT, 5.0, WEAK);
    assert s2.all == map[LIMIT := [FOUND, WEAK]];
    assert s.clients[7].changes[LIMIT := WEAK] == map[LIMIT := WEAK];
    assert s2.clients == map[7 := Info(1, ROLE_OTHER, map[LIMIT := WEAK])];
  }

  lemma Departure()
    ensures DisconnectStep(Limited([FOUND, WEAK], WEAK), 7, {LIMIT}) == Deserted()
  {
    var s, s' := Limited([FOUND, WEAK], WEAK), DisconnectStep(Limited([FOUND, WEAK], WEAK), 7, {LIMIT});
    assert [FOUND, WEAK][1..] == [WEAK];
    assert Without([FOUND, WEAK], Client(7)) == [FOUND];
    assert s'.all == map[LIMIT := [FOUND]] && s'.hw == map[LIMIT := 1.0];
    assert s'.clients == map[];
  }

  lemma Extend(states: seq<State>, events: seq<Event>, e: Event) returns (ss: seq<State>, es: seq<Event>)
    requires Run(states, events) && Enabled(states[|events|], e)
    ensures Run(ss, es) && ss == states + [Step(states[|events|], e)] && es == events + [e]
  {
    ss, es := states + [Step(states[|events|], e)], events + [e];
  }

  lemma Joined() returns (ss: seq<State>, es: seq<Event>)
    ensures Run(ss, es) && |es| == 2 && ss[0] == Booted() && ss[2] == Connected(ROLE_OTHER)
  {
    ss, es := Extend([Booted()], [], Connect(7, 1));
    assert ss[1] == Connected(NOT_SPECIFIED);
    ss, es := Extend(ss, es, Authorize(7, ROLE_OTHER));
    assert ss[2] == Connected(ROLE_OTHER);
  }

  lemma Asked() returns (ss: seq<State>, es: seq<Event>)
    ensures Run(ss, es) && |es| == 3 && ss[0] == Booted() && ss[3] == Limited([STRICT, FOUND], STRICT)
  {
    ss, es := Joined();
    StrictRequest();
    ss, es := Extend(ss, es, Set(7, LIMIT, 1.0, true, true));
  }

  /** The failing family is reached: connect, authorize, set, set.  The last request, with working reads and writes,
      turns agreement into disagreement. */
  lemma GivingUpTheHeadDisagrees() returns (ss: seq<State>, es: seq<Event>)
    ensures Run(ss, es) && |es| == 4 && es[3] == Set(7, LIMIT, 5.0, true, true) && ss[0] == Booted()
    ensures Agrees(ss[3], LIMIT) && !Agrees(ss[4], LIMIT) && ss[4] == Limited([FOUND, WEAK], WEAK)
  {
    ss, es := Asked();
    WeakRequest();
    ss, es := Extend(ss, es, Set(7, LIMIT, 5.0, true, true));
  }

  /** The client leaves, its rollback succeeds, and the hardware keeps 1.0 although the only list entry is the default
      3.0 and no persistent value was ever set. */
  lemma ValueIsStranded() returns (ss: seq<State>, es: seq<Event>)
    ensures Run(ss, es) && ss[0].hw == map[LIMIT := 3.0]
    ensures var s := ss[|es|];
            s.clients == map[] && s.all == map[LIMIT := [FOUND]] && s.hw == map[LIMIT := 1.0] && FOUND.value == 3.0
  {
    ss, es := GivingUpTheHeadDisagrees();
    Departure();
    ss, es := Extend(ss, es, Disconnect(7, {LIMIT}));
  }
}
