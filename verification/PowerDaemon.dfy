/** The power daemon itself: tables updated in place by the worker and on disconnection
    (daemon/pwrapi_worker.c, pwrapi_set.c, pwrapi_socket.c, powerapid.c), proved to take exactly the
    steps of Arbitration. */
module PowerDaemon {
  import opened Priority
  import opened PathRequests
  import opened Arbitration
  import opened ArbitrationSafety
  import opened HardwareAgreement

  /** The hash table that set_insert and set_remove update beside all_changes. */
  datatype Table = NoTable | DefValues | MyChanges(c: nat)

  lemma WithoutAbsent(list: seq<Entry>, o: Owner)
    requires forall x :: x in list ==> x.owner != o
    ensures Without(list, o) == list
  {
    AbsentOwner(list, o);
    WithoutIsCut(list, o);
  }

  /** A client without a request for the path has none in the list; the default is never the last to go. */
  lemma AbsentFromList(s: State, c: nat, p: Path)
    requires Inv(s) && c in s.clients && p in s.all
    ensures p !in s.clients[c].changes ==> Without(s.all[p], Client(c)) == s.all[p]
    ensures p in s.clients[c].changes ==> s.clients[c].changes[p].owner == Client(c)
    ensures Without(s.all[p], Client(c)) != []
  {
    assert PathInv(s, p);
    WithoutContents(s.all[p], Client(c), s.def[p]);
    if p !in s.clients[c].changes {
      WithoutAbsent(s.all[p], Client(c));
    } else {
      assert c in Held(s.clients, p);
    }
  }

  /** What the worker relies on: the default and the client's request are where the tables say. */
  predicate KnownPath(s: State, p: Path)
  {
    (p in s.def <==> p in s.all) && (p in s.def ==> s.def[p].owner == Default)
  }

  predicate KnownRequest(s: State, c: nat, p: Path)
    requires c in s.clients && p in s.all
  {
    if p in s.clients[c].changes then s.clients[c].changes[p].owner == Client(c)
    else Without(s.all[p], Client(c)) == s.all[p]
  }

  lemma SetKnown(s: State, c: nat, p: Path, v: real)
    requires Inv(s) && c in s.clients
    ensures KnownPath(s, p)
    ensures p in WithDefault(s, c, p, v).all && KnownRequest(WithDefault(s, c, p, v), c, p)
  {
    if p in s.all {
      assert PathInv(s, p);
    }
    WithDefaultInv(s, c, p, v);
    AbsentFromList(WithDefault(s, c, p, v), c, p);
  }

  /** Every request in `changes` can be taken out of its list without emptying it. */
  predicate Undoable(all: map<Path, seq<Entry>>, changes: map<Path, Entry>)
  {
    forall p :: p in changes ==> p in all && Without(all[p], changes[p].owner) != []
  }

  lemma ClientUndoable(s: State, c: nat)
    requires Inv(s) && c in s.clients
    ensures Undoable(s.all, s.clients[c].changes)
  {
    forall p | p in s.clients[c].changes
      ensures p in s.all && Without(s.all[p], s.clients[c].changes[p].owner) != []
    {
      AbsentFromList(s, c, p);
    }
  }

  /** The part of a map that is not still to do. */
  function Done<K, V>(m: map<K, V>, todo: set<K>): map<K, V> { map k | k in m && k !in todo :: m[k] }

  lemma OneMoreDone<K, V>(m: map<K, V>, todo: set<K>, k: K)
    requires k in todo && k in m
    ensures k !in Done(m, todo) && Done(m, todo - {k}) == Done(m, todo)[k := m[k]]
  {
  }

  lemma AllDone<K, V>(m: map<K, V>)
    ensures Done(m, m.Keys) == map[] && Done(m, {}) == m
  {
  }

  /** The client with a record of its request for the path. */
  function Remembering(i: Info, p: Path, e: Entry): Info { i.(changes := i.changes[p := e]) }

  /** The client without its record of a request for the path. */
  function Forgetful(i: Info, p: Path): Info { i.(changes := i.changes - {p}) }

  lemma ForgetThenRecord(clients: map<nat, Info>, c: nat, p: Path, e: Entry)
    requires c in clients
    ensures var i := Forgetful(clients[c], p);
            clients[c := i][c := i.(changes := i.changes[p := e])] ==
            clients[c := clients[c].(changes := clients[c].changes[p := e])]
  {
    assert (clients[c].changes - {p})[p := e] == clients[c].changes[p := e];
  }

  lemma RollbackNone(s: State, writable: set<Path>)
    ensures Rollback(s, map[], writable) == s
  {
    assert Rollback(s, map[], writable).all == s.all && Rollback(s, map[], writable).hw == s.hw;
  }

  /** Requests of one client concern different paths, so they can be rolled back one after the other. */
  lemma RollbackOneMore(s: State, done: map<Path, Entry>, p: Path, e: Entry, writable: set<Path>)
    requires p !in done && p in s.all
    ensures var r, r' := Rollback(s, done, writable), Rollback(s, done[p := e], writable);
            && p in r.all && r.all[p] == s.all[p]
            && r' == r.(all := r.all[p := Without(s.all[p], e.owner)],
                        hw := if p in r.hw
                              then r.hw[p := RolledBackHw(p, r.all[p], e, r.hw[p], p in writable)] else r.hw)
  {
    var r, r' := Rollback(s, done, writable), Rollback(s, done[p := e], writable);
    assert r'.all == r.all[p := Without(s.all[p], e.owner)];
    if p in r.hw {
      assert r.hw[p] == s.hw[p];
      assert r'.hw == r.hw[p := RolledBackHw(p, s.all[p], e, s.hw[p], p in writable)];
    } else {
      assert r'.hw == r.hw;
    }
  }

  class Daemon {
    var allChanges: map<Path, seq<Entry>>
    var defValues: map<Path, Entry>
    var openSockets: map<nat, Info>
    var hw: map<Path, real>
    var clock: nat

    ghost function Abs(): State
      reads this
    {
      State(allChanges, defValues, openSockets, hw, clock)
    }

    constructor (hardware: map<Path, real>)
      ensures Abs() == State(map[], map[], map[], hardware, 0) && Inv(Abs())
    {
      allChanges, defValues, openSockets, hw, clock := map[], map[], map[], hardware, 0;
    }

    method RecordIn(table: Table, p: Path, e: Entry)
      requires table.MyChanges? ==> table.c in openSockets
      modifies this`defValues, this`openSockets
      ensures defValues == if table.DefValues? then old(defValues)[p := e] else old(defValues)
      ensures openSockets == if table.MyChanges?
                             then old(openSockets)[table.c := Remembering(old(openSockets)[table.c], p, e)]
                             else old(openSockets)
    {
      match table
      case NoTable =>
      case DefValues => defValues := defValues[p := e];
      case MyChanges(c) => openSockets := openSockets[c := Remembering(openSockets[c], p, e)];
    }

    /** daemon/pwrapi_set.c:48-65 */
    method SetInsert(p: Path, e: Entry, table: Table)
      requires table.MyChanges? ==> table.c in openSockets
      modifies this`allChanges, this`defValues, this`openSockets
      ensures allChanges == old(allChanges)[p := Insert(p.attr, old(List(Abs(), p)), e)]
      ensures defValues == if table.DefValues? then old(defValues)[p := e] else old(defValues)
      ensures openSockets == if table.MyChanges?
                             then old(openSockets)[table.c := Remembering(old(openSockets)[table.c], p, e)]
                             else old(openSockets)
    {
      RecordIn(table, p, e);
      var list := if p in allChanges then allChanges[p] else [];
      allChanges := allChanges[p := Insert(p.attr, list, e)];
    }

    method ForgetIn(table: Table, p: Path)
      requires table.MyChanges? ==> table.c in openSockets
      modifies this`defValues, this`openSockets
      ensures defValues == if table.DefValues? then old(defValues) - {p} else old(defValues)
      ensures openSockets == if table.MyChanges?
                             then old(openSockets)[table.c := Forgetful(old(openSockets)[table.c], p)]
                             else old(openSockets)
    {
      match table
      case NoTable =>
      case DefValues => defValues := defValues - {p};
      case MyChanges(c) => openSockets := openSockets[c := Forgetful(openSockets[c], p)];
    }

    /** daemon/pwrapi_set.c:67-84 */
    method SetRemove(p: Path, e: Entry, table: Table)
      requires table.MyChanges? ==> table.c in openSockets
      modifies this`allChanges, this`defValues, this`openSockets
      ensures allChanges == old(allChanges)[p := Without(old(List(Abs(), p)), e.owner)]
      ensures defValues == if table.DefValues? then old(defValues) - {p} else old(defValues)
      ensures openSockets == if table.MyChanges?
                             then old(openSockets)[table.c := Forgetful(old(openSockets)[table.c], p)]
                             else old(openSockets)
    {
      ForgetIn(table, p);
      var list := if p in allChanges then allChanges[p] else [];
      allChanges := allChanges[p := Without(list, e.owner)];
    }

    method WriteAttrValue(p: Path, e: Entry, writable: bool) returns (ok: bool)
      modifies this`hw
      ensures ok == (writable && p in old(hw))
      ensures hw == if ok then old(hw)[p := e.value] else old(hw)
    {
      ok := writable && p in hw;
      if ok {
        hw := hw[p := e.value];
      }
    }

    method ReadAttrValue(p: Path, readable: bool) returns (ok: bool, v: real)
      ensures ok == (readable && p in hw)
      ensures ok ==> v == hw[p]
    {
      ok := readable && p in hw;
      v := if ok then hw[p] else 0.0;
    }

    /** Replaces the default of the path, if any (daemon/pwrapi_worker.c:561-606). */
    method RecordDefault(p: Path, value: real)
      requires KnownPath(Abs(), p)
      modifies this`allChanges, this`defValues, this`openSockets, this`clock
      ensures clock == old(clock) + 1 && openSockets == old(openSockets)
      ensures defValues == old(defValues)[p := Entry(Default, value, clock)]
      ensures allChanges == old(allChanges)[p := Renew(p.attr, old(List(Abs(), p)), Entry(Default, value, clock))]
    {
      ghost var all, def := allChanges, defValues;
      if p in defValues {
        SetRemove(p, defValues[p], DefValues);
      }
      clock := clock + 1;
      SetInsert(p, Entry(Default, value, clock), DefValues);
      assert defValues == def[p := Entry(Default, value, clock)];
    }

    /** Records a default when there is none or the request is persistent
        (daemon/pwrapi_worker.c:554-607). */
    method EnsureDefault(c: nat, p: Path, v: real, readable: bool) returns (ok: bool)
      requires c in openSockets && KnownPath(Abs(), p)
      modifies this`allChanges, this`defValues, this`openSockets, this`clock
      ensures ok == !old(DefaultUnreadable(Abs(), c, p, readable))
      ensures Abs() == if ok then old(WithDefault(Abs(), c, p, v)) else old(Abs())
    {
      ok := true;
      var persist := IsPersistent(openSockets[c]);
      if p !in defValues || persist {
        var value := v;
        if !persist {
          ok, value := ReadAttrValue(p, readable);
          if !ok {
            return;
          }
        }
        RecordDefault(p, value);
      }
    }

    method TakeRequestOut(c: nat, p: Path)
      requires c in openSockets && p in allChanges && KnownRequest(Abs(), c, p)
      modifies this`allChanges, this`defValues, this`openSockets
      ensures allChanges == old(allChanges)[p := Without(old(allChanges)[p], Client(c))]
      ensures defValues == old(defValues)
      ensures openSockets == old(openSockets)[c := Forgetful(old(openSockets)[c], p)]
    {
      if p in openSockets[c].changes {
        SetRemove(p, openSockets[c].changes[p], MyChanges(c));
      } else {
        assert openSockets[c].changes - {p} == openSockets[c].changes;
      }
    }

    /** Replaces the client's request for the path (daemon/pwrapi_worker.c:609-621). */
    method RecordRequest(c: nat, p: Path, v: real) returns (e: Entry)
      requires c in openSockets && p in allChanges && KnownRequest(Abs(), c, p)
      modifies this`allChanges, this`defValues, this`openSockets, this`clock
      ensures Abs() == old(WithRequest(Abs(), c, p, v))
      ensures e == Entry(Client(c), v, clock)
    {
      ghost var s := Abs();
      TakeRequestOut(c, p);
      clock := clock + 1;
      e := Entry(Client(c), v, clock);
      SetInsert(p, e, MyChanges(c));
      assert allChanges == s.all[p := Renew(p.attr, s.all[p], e)];
      ForgetThenRecord(s.clients, c, p, e);
    }

    /** Writes the request if it ties with the head (daemon/pwrapi_worker.c:623-631). */
    method WriteIfTop(c: nat, p: Path, e: Entry, writable: bool) returns (ok: bool)
      requires c in openSockets && p in openSockets[c].changes && openSockets[c].changes[p] == e
      requires p in allChanges && allChanges[p] != []
      modifies this`hw
      ensures Abs() == old(Written(Abs(), c, p, writable))
      ensures ok <==> (Compare(p.attr, e, allChanges[p][0]) == 0 ==> writable && p in hw && hw[p] == e.value)
    {
      ok := true;
      var top := allChanges[p][0];
      if Compare(p.attr, e, top) == 0 {
        ok := WriteAttrValue(p, e, writable);
      }
    }

    /** One request taken from the work queue (daemon/pwrapi_worker.c:539-636).  A default that cannot be
        read changes no table. */
    method ProcessItem(c: nat, p: Path, v: real, readable: bool, writable: bool) returns (ok: bool)
      requires Inv(Abs()) && c in openSockets
      modifies this
      ensures Abs() == old(SetStep(Abs(), c, p, v, readable, writable)) && Inv(Abs())
      ensures old(DefaultUnreadable(Abs(), c, p, readable)) ==> !ok && Abs() == old(Abs())
      ensures !old(DefaultUnreadable(Abs(), c, p, readable)) ==>
                && p in allChanges && allChanges[p] != []
                && (ok <==> (allChanges[p][0] == Entry(Client(c), v, clock) ==> writable && p in hw && hw[p] == v))
    {
      ghost var s := Abs();
      SetInv(s, c, p, v, readable, writable);
      SetKnown(s, c, p, v);
      ok := EnsureDefault(c, p, v, readable);
      if ok {
        ghost var s1 := Abs();
        var e := RecordRequest(c, p, v);
        TiesOnlyAsHead(s1, c, p, v);
        ok := WriteIfTop(c, p, e, writable);
      }
    }

    /** daemon/pwrapi_set.c:100-138 */
    method SetRollback(p: Path, e: Entry, writable: bool)
      requires p in allChanges && Without(allChanges[p], e.owner) != []
      modifies this`allChanges, this`defValues, this`openSockets, this`hw
      ensures defValues == old(defValues) && openSockets == old(openSockets)
      ensures allChanges == old(allChanges)[p := Without(old(allChanges)[p], e.owner)]
      ensures hw == if p in old(hw)
                    then old(hw)[p := RolledBackHw(p, old(allChanges)[p], e, old(hw)[p], writable)]
                    else old(hw)
    {
      SetRemove(p, e, NoTable);
      var top := allChanges[p][0];
      if Compare(p.attr, e, top) < 0 {
        var _ := WriteAttrValue(p, top, writable);
      }
      assert p in old(hw) ==> hw == old(hw)[p := hw[p]];
    }

    /** One more of a client's requests is rolled back, the ones in `done` being rolled back already. */
    method RollbackNext(ghost s: State, ghost done: map<Path, Entry>, p: Path, e: Entry, writable: set<Path>)
      requires Abs() == Rollback(s, done, writable) && p !in done
      requires p in s.all && Without(s.all[p], e.owner) != []
      modifies this`allChanges, this`defValues, this`openSockets, this`hw
      ensures Abs() == Rollback(s, done[p := e], writable)
    {
      RollbackOneMore(s, done, p, e, writable);
      SetRollback(p, e, p in writable);
    }

    /** g_hash_table_foreach_remove over my_changes: an arbitrary order. */
    method RollbackAll(changes: map<Path, Entry>, writable: set<Path>)
      requires Undoable(allChanges, changes)
      modifies this`allChanges, this`defValues, this`openSockets, this`hw
      ensures Abs() == old(Rollback(Abs(), changes, writable))
    {
      ghost var s := Abs();
      var todo := changes.Keys;
      AllDone(changes);
      RollbackNone(s, writable);
      while todo != {}
        invariant Abs() == Rollback(s, Done(changes, todo), writable)
        invariant todo <= changes.Keys
        decreases todo
      {
        var p :| p in todo;
        OneMoreDone(changes, todo, p);
        RollbackNext(s, Done(changes, todo), p, changes[p], writable);
        todo := todo - {p};
      }
    }

    /** daemon/pwrapi_socket.c:92-113 */
    method SocketDestruct(c: nat, writable: set<Path>)
      requires Inv(Abs())
      modifies this
      ensures Inv(Abs())
      ensures Abs() == if c in old(openSockets) then old(DisconnectStep(Abs(), c, writable)) else old(Abs())
    {
      if c in openSockets {
        ghost var s := Abs();
        DisconnectInv(s, c, writable);
        ClientUndoable(s, c);
        var changes := openSockets[c].changes;
        openSockets := openSockets - {c};
        RollbackAll(changes, writable);
        assert Abs() == DisconnectStep(s, c, writable);
      }
    }

    /** The shutdown loop (daemon/powerapid.c:827-834): every connected client is destroyed.  Each list is then
        just its default, and where hardware and list agreed before, the hardware holds that default. */
    method Shutdown(maxSocket: nat, writable: set<Path>)
      requires Inv(Abs()) && (forall c :: c in openSockets ==> c < maxSocket)
      requires forall p :: p in allChanges ==> p in writable && p.attr != OTHER && Agrees(Abs(), p)
      modifies this
      ensures openSockets == map[] && defValues == old(defValues) && allChanges.Keys == old(allChanges).Keys
      ensures forall p :: p in allChanges ==> p in defValues && allChanges[p] == [defValues[p]]
      ensures forall p :: p in allChanges ==> p in hw && hw[p] == defValues[p].value
    {
      for fd := 0 to maxSocket
        invariant Inv(Abs()) && defValues == old(defValues) && allChanges.Keys == old(allChanges).Keys
        invariant forall c :: c in openSockets ==> fd <= c < maxSocket
        invariant forall p :: p in allChanges ==> Agrees(Abs(), p)
      {
        ghost var s := Abs();
        SocketDestruct(fd, writable);
        if fd in s.clients {
          forall p | p in allChanges
            ensures Agrees(Abs(), p)
          {
            DisconnectAgrees(s, fd, writable, p);
          }
        }
      }
      forall p | p in allChanges
        ensures p in defValues && allChanges[p] == [defValues[p]]
      {
        NoClientsLeft(Abs(), p);
      }
    }
  }

  /** A fresh request ties with the head exactly when it is the head. */
  lemma TiesOnlyAsHead(s: State, c: nat, p: Path, v: real)
    requires c in s.clients && p in s.all
    ensures var top, e := WithRequest(s, c, p, v).all[p][0], Entry(Client(c), v, s.now + 1);
            Compare(p.attr, e, top) == 0 <==> top == e
  {
    RequestBuilt(s, c, p, v, Entry(Client(c), v, s.now + 1));
  }
}
