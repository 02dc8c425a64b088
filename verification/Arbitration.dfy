/** The power daemon's tables and what requests, connections and disconnections do to them
    (daemon/pwrapi_worker.c, pwrapi_set.c, pwrapi_socket.c, powerapid.c). */
module Arbitration {
  import opened Priority
  import opened PathRequests

  /** The path of a control file determines the attribute. */
  datatype Path = Path(name: string, attr: Attr)

  datatype Role = NOT_SPECIFIED | ROLE_RM | ROLE_OTHER

  datatype Info = Info(uid: nat, role: Role, changes: map<Path, Entry>)

  /** all_changes, def_values, open_sockets, the hardware, and the clock that stamps requests. */
  datatype State = State(
    all: map<Path, seq<Entry>>,
    def: map<Path, Entry>,
    clients: map<nat, Info>,
    hw: map<Path, real>,
    now: nat)

  /** daemon/pwrapi_socket.c:49-62, for a request that names a client. */
  predicate IsPersistent(i: Info) { i.uid == 0 && i.role == ROLE_RM }

  function List(s: State, p: Path): seq<Entry> { if p in s.all then s.all[p] else [] }

  // ----- One set request (daemon/pwrapi_worker.c:540-636) -----

  /** Whether the request makes the daemon record a default first, and whether it can. */
  predicate NeedsDefault(s: State, c: nat, p: Path)
    requires c in s.clients
  {
    p !in s.def || IsPersistent(s.clients[c])
  }

  predicate DefaultUnreadable(s: State, c: nat, p: Path, readable: bool)
    requires c in s.clients
  {
    p !in s.def && !IsPersistent(s.clients[c]) && !(readable && p in s.hw)
  }

  function DefaultValue(s: State, c: nat, p: Path, v: real): real
    requires c in s.clients
  {
    if IsPersistent(s.clients[c]) then v else if p in s.hw then s.hw[p] else 0.0
  }

  function WithDefault(s: State, c: nat, p: Path, v: real): (s': State)
    requires c in s.clients
    ensures s'.clients == s.clients && s'.hw == s.hw && s'.now >= s.now
  {
    if !NeedsDefault(s, c, p) then s
    else
      var d := Entry(Default, DefaultValue(s, c, p, v), s.now + 1);
      s.(def := s.def[p := d], all := s.all[p := Renew(p.attr, List(s, p), d)], now := s.now + 1)
  }

  function WithRequest(s: State, c: nat, p: Path, v: real): (s': State)
    requires c in s.clients
    ensures c in s'.clients && p in s'.all && s'.all[p] != []
  {
    var e := Entry(Client(c), v, s.now + 1);
    s.(clients := s.clients[c := s.clients[c].(changes := s.clients[c].changes[p := e])],
       all := s.all[p := Renew(p.attr, List(s, p), e)], now := s.now + 1)
  }

  function Written(s: State, c: nat, p: Path, writable: bool): State
    requires c in s.clients && p in s.clients[c].changes && p in s.all && s.all[p] != []
  {
    var e := s.clients[c].changes[p];
    if Compare(p.attr, e, s.all[p][0]) == 0 && writable && p in s.hw then s.(hw := s.hw[p := e.value]) else s
  }

  function SetStep(s: State, c: nat, p: Path, v: real, readable: bool, writable: bool): State
    requires c in s.clients
  {
    if DefaultUnreadable(s, c, p, readable) then s
    else Written(WithRequest(WithDefault(s, c, p, v), c, p, v), c, p, writable)
  }

  // ----- A disconnection (daemon/pwrapi_socket.c:92-113) -----

  /** Rolling back one request (daemon/pwrapi_set.c:100-138). */
  function RolledBackHw(p: Path, list: seq<Entry>, e: Entry, hw: real, writable: bool): real
  {
    var w := Without(list, e.owner);
    if w != [] && Compare(p.attr, e, w[0]) < 0 && writable then w[0].value else hw
  }

  /** All requests of the client are rolled back; the outcome does not mention an order. */
  function Rollback(s: State, changes: map<Path, Entry>, writable: set<Path>): (s': State)
  {
    s.(all := map p | p in s.all :: if p in changes then Without(s.all[p], changes[p].owner) else s.all[p],
       hw := map p | p in s.hw ::
               if p in changes then RolledBackHw(p, List(s, p), changes[p], s.hw[p], p in writable) else s.hw[p])
  }

  function DisconnectStep(s: State, c: nat, writable: set<Path>): State
    requires c in s.clients
  {
    Rollback(s.(clients := s.clients - {c}), s.clients[c].changes, writable)
  }

  // ----- Runs -----

  datatype Event =
    | Connect(c: nat, uid: nat)
    | Authorize(c: nat, role: Role)
    | Set(c: nat, p: Path, v: real, readable: bool, writable: bool)
    | Disconnect(c: nat, writables: set<Path>)

  predicate Enabled(s: State, e: Event)
  {
    match e
    case Connect(c, _) => c !in s.clients
    case Authorize(c, _) => c in s.clients
    case Set(c, _, _, _, _) => c in s.clients
    case Disconnect(c, _) => c in s.clients
  }

  /** Request dispatch (daemon/powerapid.c:368-406): a second authorization and a set before authorization
      are refused. */
  function Step(s: State, e: Event): State
    requires Enabled(s, e)
  {
    match e
    case Connect(c, uid) => s.(clients := s.clients[c := Info(uid, NOT_SPECIFIED, map[])])
    case Authorize(c, role) =>
      if s.clients[c].role != NOT_SPECIFIED then s
      else s.(clients := s.clients[c := s.clients[c].(role := role)])
    case Set(c, p, v, readable, writable) =>
      if s.clients[c].role == NOT_SPECIFIED then s else SetStep(s, c, p, v, readable, writable)
    case Disconnect(c, writables) => DisconnectStep(s, c, writables)
  }

  predicate Init(s: State) { s.all == map[] && s.def == map[] && s.clients == map[] }

  ghost predicate Run(states: seq<State>, events: seq<Event>)
  {
    && |states| == |events| + 1
    && Init(states[0])
    && (forall i :: 0 <= i < |events| ==> Enabled(states[i], events[i]) && states[i + 1] == Step(states[i], events[i]))
  }
}
