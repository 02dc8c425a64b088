/** Who may do what in the power daemon, told from the events alone: the user a client connected as, the role of its
    first authorization, and what its requests then do (daemon/pwrapi_socket.c:49-62, daemon/powerapid.c:368-406). */
module Credentials {
  import opened Options
  import opened Priority
  import opened PathRequests
  import opened Arbitration
  import opened ArbitrationSafety

  /** The user that client c last connected as, among the first i events. */
  function UserOf(events: seq<Event>, i: nat, c: nat): Option<nat>
    requires i <= |events|
  {
    if i == 0 then None
    else if events[i - 1].Connect? && events[i - 1].c == c then Some(events[i - 1].uid)
    else UserOf(events, i - 1, c)
  }

  /** The role of the first authorization since that gave one. */
  function RoleOf(events: seq<Event>, i: nat, c: nat): Role
    requires i <= |events|
  {
    if i == 0 then NOT_SPECIFIED
    else
      var e, before := events[i - 1], RoleOf(events, i - 1, c);
      if e.Connect? && e.c == c then NOT_SPECIFIED
      else if e.Authorize? && e.c == c && before == NOT_SPECIFIED then e.role
      else before
  }

  lemma StepCredentials(s: State, e: Event, c: nat)
    requires Enabled(s, e) && c in Step(s, e).clients
    ensures var s' := Step(s, e);
            if e.Connect? && e.c == c then s'.clients[c].uid == e.uid && s'.clients[c].role == NOT_SPECIFIED
            else
              && c in s.clients && s'.clients[c].uid == s.clients[c].uid
              && s'.clients[c].role == if e.Authorize? && e.c == c && s.clients[c].role == NOT_SPECIFIED then e.role
                                       else s.clients[c].role
  {
  }

  /** The daemon's record of a client is what the events say. */
  lemma {:induction false} CredentialsKept(states: seq<State>, events: seq<Event>, i: nat, c: nat)
    requires Run(states, events) && i < |states| && c in states[i].clients
    ensures UserOf(events, i, c) == Some(states[i].clients[c].uid) && RoleOf(events, i, c) == states[i].clients[c].role
  {
    if i > 0 {
      StepCredentials(states[i - 1], events[i - 1], c);
      if !(events[i - 1].Connect? && events[i - 1].c == c) {
        CredentialsKept(states, events, i - 1, c);
      }
    }
  }

  /** A request by a client that connected as root and was first authorized as resource manager. */
  predicate FromResourceManager(events: seq<Event>, k: nat)
    requires k < |events|
  {
    events[k].Set? && UserOf(events, k, events[k].c) == Some(0) && RoleOf(events, k, events[k].c) == ROLE_RM
  }

  /** Such requests, and no others, are persistent. */
  lemma PersistentIff(states: seq<State>, events: seq<Event>, k: nat)
    requires Run(states, events) && k < |events| && events[k].Set?
    ensures events[k].c in states[k].clients
    ensures IsPersistent(states[k].clients[events[k].c]) <==> FromResourceManager(events, k)
  {
    assert Enabled(states[k], events[k]);
    CredentialsKept(states, events, k, events[k].c);
  }

  /** What one request does to a default: a resource manager that is root replaces it, anyone else leaves it. */
  lemma DefaultAfterSet(s: State, c: nat, p: Path, v: real, readable: bool, writable: bool)
    requires c in s.clients && s.clients[c].role != NOT_SPECIFIED && p in s.def
    ensures var s' := Step(s, Set(c, p, v, readable, writable));
            && p in s'.def
            && s'.def[p].value == if s.clients[c].uid == 0 && s.clients[c].role == ROLE_RM then v else s.def[p].value
  {
  }

  /** A client that has not been authorized changes nothing by its requests. */
  lemma UnauthorizedIgnored(states: seq<State>, events: seq<Event>, k: nat)
    requires Run(states, events) && k < |events| && events[k].Set?
    requires RoleOf(events, k, events[k].c) == NOT_SPECIFIED
    ensures states[k + 1] == states[k]
  {
    assert Enabled(states[k], events[k]);
    CredentialsKept(states, events, k, events[k].c);
  }

  /** An authorized one has its request recorded, the newest of all, unless a default was needed and could not be read;
      nobody else's request changes. */
  lemma AuthorizedRecorded(states: seq<State>, events: seq<Event>, k: nat)
    requires Run(states, events) && k < |events| && events[k].Set?
    requires RoleOf(events, k, events[k].c) != NOT_SPECIFIED
    ensures var s, s', e := states[k], states[k + 1], events[k];
            && e.c in s.clients && e.c in s'.clients && s'.clients.Keys == s.clients.Keys
            && (e.p !in s.def && !FromResourceManager(events, k) && !(e.readable && e.p in s.hw) ==> s' == s)
            && (e.p in s.def || FromResourceManager(events, k) || (e.readable && e.p in s.hw) ==>
                  s'.clients[e.c].changes == s.clients[e.c].changes[e.p := Entry(Client(e.c), e.v, s'.now)])
            && (forall d :: d in s.clients && d != e.c ==> s'.clients[d] == s.clients[d])
  {
    assert Enabled(states[k], events[k]);
    PersistentIff(states, events, k);
    CredentialsKept(states, events, k, events[k].c);
  }
}
