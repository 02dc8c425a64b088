/** What every run of the power daemon keeps: the tables agree with each other, and the hardware holds
    the value of the highest-priority request exactly as long as no request gives up the head without
    becoming it. */
module ArbitrationSafety {
  import opened Priority
  import opened PathRequests
  import opened Arbitration

  /** The clients' requests for one path. */
  function Held(clients: map<nat, Info>, p: Path): map<nat, Entry>
  {
    map c | c in clients && p in clients[c].changes :: clients[c].changes[p]
  }

  /** all_changes[p] holds exactly the default and one request per client that has one, agreeing with
      def_values and with each client's my_changes. */
  predicate PathInv(s: State, p: Path)
    requires p in s.all && p in s.def
  {
    Outstanding(p.attr, s.all[p], s.def[p], Held(s.clients, p), s.now)
  }

  predicate Inv(s: State)
  {
    && s.all.Keys == s.def.Keys
    && (forall p :: p in s.all ==> PathInv(s, p))
    && (forall c, p :: c in s.clients && p in s.clients[c].changes ==> p in s.all)
  }

  lemma LaterStill(attr: Attr, list: seq<Entry>, d: Entry, held: map<nat, Entry>, now: nat, later: nat)
    requires Outstanding(attr, list, d, held, now) && now <= later
    ensures Outstanding(attr, list, d, held, later)
  {
  }

  lemma WithDefaultInv(s: State, c: nat, p: Path, v: real)
    requires Inv(s) && c in s.clients
    ensures Inv(WithDefault(s, c, p, v)) && p in WithDefault(s, c, p, v).all
  {
    var s' := WithDefault(s, c, p, v);
    if NeedsDefault(s, c, p) {
      if p in s.all {
        assert PathInv(s, p);
      } else {
        assert Held(s.clients, p) == map[];
      }
      DefaultPath(s, c, p, v);
      forall q | q in s'.all
        ensures PathInv(s', q)
      {
        if q != p {
          assert PathInv(s, q);
          LaterStill(q.attr, s.all[q], s.def[q], Held(s.clients, q), s.now, s'.now);
        }
      }
    }
  }

  lemma DefaultPath(s: State, c: nat, p: Path, v: real)
    requires c in s.clients && NeedsDefault(s, c, p) && (p in s.all <==> p in s.def)
    requires if p in s.all then PathInv(s, p) else Held(s.clients, p) == map[]
    ensures var s' := WithDefault(s, c, p, v); p in s'.all && p in s'.def && PathInv(s', p)
  {
    var s', d := WithDefault(s, c, p, v), Entry(Default, DefaultValue(s, c, p, v), s.now + 1);
    assert s'.all[p] == Renew(p.attr, List(s, p), d) && s'.def[p] == d && s'.clients == s.clients && s'.now == d.time;
    if p in s.all {
      RenewDefault(p.attr, s.all[p], s.def[p], Held(s.clients, p), s.now, d);
    } else {
      FirstDefault(p.attr, d);
    }
  }

  lemma HeldAfterRequest(clients: map<nat, Info>, c: nat, p: Path, e: Entry, q: Path)
    requires c in clients
    ensures var clients' := clients[c := clients[c].(changes := clients[c].changes[p := e])];
            Held(clients', q) == if q == p then Held(clients, p)[c := e] else Held(clients, q)
  {
  }

  lemma HeldAfterLeave(clients: map<nat, Info>, c: nat, q: Path)
    requires c in clients
    ensures Held(clients - {c}, q) == Held(clients, q) - {c}
    ensures q !in clients[c].changes ==> Held(clients - {c}, q) == Held(clients, q)
  {
  }

  lemma RequestPath(s: State, c: nat, p: Path, v: real, q: Path)
    requires c in s.clients && q in s.all && q in s.def && PathInv(s, q)
    ensures var s' := WithRequest(s, c, p, v);
            Outstanding(q.attr, s'.all[q], s.def[q], Held(s'.clients, q), s.now + 1)
  {
    if q == p {
      RequestedPath(s, c, p, v);
    } else {
      OtherPath(s, c, p, v, q);
    }
  }

  lemma RequestedPath(s: State, c: nat, p: Path, v: real)
    requires c in s.clients && p in s.all && p in s.def && PathInv(s, p)
    ensures var s' := WithRequest(s, c, p, v);
            Outstanding(p.attr, s'.all[p], s.def[p], Held(s'.clients, p), s.now + 1)
  {
    var s', e := WithRequest(s, c, p, v), Entry(Client(c), v, s.now + 1);
    HeldAfterRequest(s.clients, c, p, e, p);
    assert Held(s'.clients, p) == Held(s.clients, p)[c := e];
    assert s'.all[p] == Renew(p.attr, s.all[p], e);
    RenewClient(p.attr, s.all[p], s.def[p], Held(s.clients, p), s.now, e);
  }

  lemma OtherPath(s: State, c: nat, p: Path, v: real, q: Path)
    requires c in s.clients && q != p && q in s.all && q in s.def && PathInv(s, q)
    ensures var s' := WithRequest(s, c, p, v);
            Outstanding(q.attr, s'.all[q], s.def[q], Held(s'.clients, q), s.now + 1)
  {
    HeldAfterRequest(s.clients, c, p, Entry(Client(c), v, s.now + 1), q);
    LaterStill(q.attr, s.all[q], s.def[q], Held(s.clients, q), s.now, s.now + 1);
  }

  lemma WithRequestInv(s: State, c: nat, p: Path, v: real)
    requires Inv(s) && c in s.clients && p in s.all
    ensures Inv(WithRequest(s, c, p, v))
  {
    var s' := WithRequest(s, c, p, v);
    RequestPathsKnown(s, c, p, v);
    assert s'.all.Keys == s'.def.Keys;
    forall q | q in s'.all
      ensures PathInv(s', q)
    {
      assert q in s.all && PathInv(s, q);
      RequestPath(s, c, p, v, q);
    }
  }

  lemma RequestPathsKnown(s: State, c: nat, p: Path, v: real)
    requires c in s.clients && p in s.all
    requires forall c, q :: c in s.clients && q in s.clients[c].changes ==> q in s.all
    ensures var s' := WithRequest(s, c, p, v);
            && s'.all.Keys == s.all.Keys
            && (forall c, q :: c in s'.clients && q in s'.clients[c].changes ==> q in s'.all)
  {
  }

  lemma SameTables(s: State, s': State)
    requires Inv(s) && s' == s.(hw := s'.hw)
    ensures Inv(s')
  {
    forall p | p in s'.all
      ensures PathInv(s', p)
    {
      assert PathInv(s, p);
    }
  }

  lemma SetInv(s: State, c: nat, p: Path, v: real, readable: bool, writable: bool)
    requires Inv(s) && c in s.clients
    ensures Inv(SetStep(s, c, p, v, readable, writable))
  {
    if !DefaultUnreadable(s, c, p, readable) {
      WithDefaultInv(s, c, p, v);
      var s1 := WithDefault(s, c, p, v);
      WithRequestInv(s1, c, p, v);
      var s2 := WithRequest(s1, c, p, v);
      SameTables(s2, Written(s2, c, p, writable));
    }
  }

  lemma DisconnectInv(s: State, c: nat, writable: set<Path>)
    requires Inv(s) && c in s.clients
    ensures Inv(DisconnectStep(s, c, writable))
  {
    var s' := DisconnectStep(s, c, writable);
    forall p | p in s'.all
      ensures PathInv(s', p)
    {
      assert PathInv(s, p);
      LeaveInv(s, c, p);
    }
  }

  lemma LeaveInv(s: State, c: nat, p: Path)
    requires c in s.clients && p in s.all && p in s.def && PathInv(s, p)
    ensures var ch := s.clients[c].changes;
            Outstanding(p.attr, if p in ch then Without(s.all[p], ch[p].owner) else s.all[p], s.def[p],
                        Held(s.clients - {c}, p), s.now)
  {
    HeldAfterLeave(s.clients, c, p);
    if p in s.clients[c].changes {
      assert c in Held(s.clients, p);
      DropClient(p.attr, s.all[p], s.def[p], Held(s.clients, p), s.now, c);
    }
  }

  lemma ClientsInv(s: State, s': State, c: nat)
    requires Inv(s) && s' == s.(clients := s'.clients) && c in s'.clients
    requires s'.clients == s.clients[c := s'.clients[c]]
    requires s'.clients[c].changes == if c in s.clients then s.clients[c].changes else map[]
    ensures Inv(s')
  {
    forall p | p in s'.all
      ensures PathInv(s', p)
    {
      assert PathInv(s, p);
      SameHeld(s.clients, s'.clients, c, p);
    }
  }

  lemma SameHeld(clients: map<nat, Info>, clients': map<nat, Info>, c: nat, p: Path)
    requires c in clients' && clients' == clients[c := clients'[c]]
    requires clients'[c].changes == if c in clients then clients[c].changes else map[]
    ensures Held(clients', p) == Held(clients, p)
  {
  }

  lemma StepInv(s: State, e: Event)
    requires Inv(s) && Enabled(s, e)
    ensures Inv(Step(s, e))
  {
    match e {
      case Connect(c, uid) => ClientsInv(s, Step(s, e), c);
      case Authorize(c, role) => ClientsInv(s, Step(s, e), c);
      case Set(c, p, v, readable, writable) => SetInv(s, c, p, v, readable, writable);
      case Disconnect(c, writable) => DisconnectInv(s, c, writable);
    }
  }

  lemma {:induction false} Reachable(states: seq<State>, events: seq<Event>, i: nat)
    requires Run(states, events) && i < |states|
    ensures Inv(states[i])
  {
    if i == 0 {
    } else {
      Reachable(states, events, i - 1);
      StepInv(states[i - 1], events[i - 1]);
    }
  }

  /** In every reachable state the list of a path holds exactly its default and one request of each client
      that has one; its head is the extreme of all outstanding values, or for governors a userspace
      request if there is any and else the newest. */
  lemma TablesAgree(states: seq<State>, events: seq<Event>, i: nat, p: Path)
    requires Run(states, events) && i < |states| && p in states[i].all
    ensures var s := states[i];
            && p in s.def && s.def[p].owner == Default && s.def[p] in s.all[p]
            && (forall c :: c in s.clients && p in s.clients[c].changes ==>
                  s.clients[c].changes[p].owner == Client(c) && s.clients[c].changes[p] in s.all[p])
            && (forall x :: x in s.all[p] && x != s.def[p] ==>
                  x.owner.Client? && x.owner.id in s.clients && p in s.clients[x.owner.id].changes
                  && s.clients[x.owner.id].changes[p] == x)
            && DistinctOwners(s.all[p]) && Sorted(p.attr, s.all[p])
            && (forall k :: 0 <= k < |s.all[p]| ==>
                  && (LowestWins(p.attr) ==> s.all[p][0].value <= s.all[p][k].value)
                  && (HighestWins(p.attr) ==> s.all[p][k].value <= s.all[p][0].value)
                  && (p.attr == GOV && s.all[p][k].value == USERSPACE ==> s.all[p][0].value == USERSPACE))
  {
    Reachable(states, events, i);
    var s := states[i];
    assert PathInv(s, p);
    var held := Held(s.clients, p);
    forall c | c in s.clients && p in s.clients[c].changes
      ensures s.clients[c].changes[p].owner == Client(c) && s.clients[c].changes[p] in s.all[p]
    {
      assert c in held;
    }
    forall k | 0 <= k < |s.all[p]|
      ensures LowestWins(p.attr) ==> s.all[p][0].value <= s.all[p][k].value
      ensures HighestWins(p.attr) ==> s.all[p][k].value <= s.all[p][0].value
      ensures p.attr == GOV && s.all[p][k].value == USERSPACE ==> s.all[p][0].value == USERSPACE
    {
      HeadIsExtreme(p.attr, s.all[p], k);
    }
  }
}
