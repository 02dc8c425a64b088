/** What the status of a forwarded set tells the caller: a closed form over all handlers reached, and exactly
    when it is what the comment at lib/object.c:686-699 promises. */
module ForwardingResults {
  import opened Forwarding

  function FirstError(s: seq<int>): int
    requires HasError(s)
  {
    if IsError(s[0]) then s[0] else FirstErrorOfRest(s); FirstError(s[1..])
  }

  lemma FirstErrorOfRest(s: seq<int>)
    requires HasError(s) && !IsError(s[0])
    ensures HasError(s[1..])
  {
    var x :| x in s && IsError(x);
    assert x in s[1..];
  }

  lemma {:induction false} FirstErrorIsError(s: seq<int>)
    requires HasError(s)
    ensures FirstError(s) in s && IsError(FirstError(s))
    ensures forall e :: ErrorsAre(s, e) ==> e == FirstError(s)
  {
    if !IsError(s[0]) {
      FirstErrorOfRest(s);
      FirstErrorIsError(s[1..]);
    }
  }

  /** No subtree in which some handler fails begins, as far as it has anything to report, with a warning. */
  predicate WellLed(o: Obj, attr: Attr, status: Pos -> int, at: Pos)
    decreases o, 1, 0
  {
    DispatchOf(o.kind, attr) == Forward ==>
      && !IsWarning(Lead(Statuses(o, attr, status, at)))
      && WellLedFrom(o, attr, status, at, 0)
  }

  predicate WellLedFrom(o: Obj, attr: Attr, status: Pos -> int, at: Pos, i: nat)
    requires i <= |o.children|
    decreases o, 0, |o.children| - i
  {
    i < |o.children| ==>
      && (HasError(Statuses(o.children[i], attr, status, at + [i])) ==> WellLed(o.children[i], attr, status, at + [i]))
      && WellLedFrom(o, attr, status, at, i + 1)
  }

  /** The result in closed form: without errors the first warning, else the only kind of error if every failing
      subtree is well led, else a failure. */
  function Outcome(s: seq<int>, well: bool): int
  {
    if NoneImplemented(s) then NOT_IMPLEMENTED
    else if !HasError(s) then Lead(s)
    else if ErrorsAre(s, FirstError(s)) && well then FirstError(s)
    else FAILURE
  }

  // ----- How the results of some children relate to the statuses below them -----

  ghost predicate Matches(rs: seq<int>, s: seq<int>, well: bool)
  {
    && (NoneImplemented(rs) <==> NoneImplemented(s))
    && (HasError(rs) <==> HasError(s))
    && LeadsMatch(rs, s, well)
    && ErrorsMatch(rs, s, well)
  }

  ghost predicate LeadsMatch(rs: seq<int>, s: seq<int>, well: bool)
  {
    && (Lead(rs) == SUCCESS <==> Lead(s) == SUCCESS)
    && (IsWarning(Lead(rs)) ==> Lead(s) == Lead(rs))
    && (IsWarning(Lead(s)) && well ==> Lead(rs) == Lead(s))
  }

  ghost predicate ErrorsMatch(rs: seq<int>, s: seq<int>, well: bool)
  {
    && (well ==> forall e :: ErrorsAre(s, e) ==> ErrorsAre(rs, e))
    && (forall e :: e != FAILURE && ErrorsAre(rs, e) ==> ErrorsAre(s, e))
    && (!well ==> FAILURE in rs)
  }

  lemma ErrorsConcat(a: seq<int>, b: seq<int>)
    ensures forall e :: ErrorsAre(a + b, e) <==> ErrorsAre(a, e) && ErrorsAre(b, e)
    ensures HasError(a + b) <==> HasError(a) || HasError(b)
    ensures NoneImplemented(a + b) <==> NoneImplemented(a) && NoneImplemented(b)
  {
    assert forall x :: x in a + b <==> x in a || x in b;
  }

  lemma MatchesConcat(r1: seq<int>, s1: seq<int>, w1: bool, r2: seq<int>, s2: seq<int>, w2: bool)
    requires Matches(r1, s1, w1) && Matches(r2, s2, w2)
    ensures Matches(r1 + r2, s1 + s2, w1 && w2)
  {
    ErrorsConcat(r1, r2);
    ErrorsConcat(s1, s2);
    LeadConcat(r1, r2);
    LeadConcat(s1, s2);
  }

  lemma ChildMatches(s: seq<int>, well: bool)
    requires HasError(s) && well ==> !IsWarning(Lead(s))
    ensures Matches([Outcome(s, well)], s, HasError(s) ==> well)
  {
    var r := Outcome(s, well);
    LeadConcat(s, []);
    LeadConcat([r], []);
    assert r in [r];
    if HasError(s) {
      FirstErrorIsError(s);
      assert IsError(r) && HasError([r]);
    }
  }

  lemma CombinedOutcome(rs: seq<int>, s: seq<int>, well: bool)
    requires Matches(rs, s, well)
    ensures Combined(rs) == Outcome(s, well && !IsWarning(Lead(s)))
  {
    LeadConcat(rs, []);
    LeadConcat(s, []);
    if HasError(s) {
      FirstErrorIsError(s);
      FirstErrorIsError(rs);
    }
  }

  // ----- The closed form -----

  /** The nested combination of statuses, however deep, has the closed form. */
  lemma {:induction false} ResultClosedForm(o: Obj, attr: Attr, status: Pos -> int, at: Pos)
    ensures Result(o, attr, status, at) == Outcome(Statuses(o, attr, status, at), WellLed(o, attr, status, at))
    ensures var s := Statuses(o, attr, status, at);
            HasError(s) && WellLed(o, attr, status, at) ==> !IsWarning(Lead(s))
    decreases o, 1, 0
  {
    var s := Statuses(o, attr, status, at);
    match DispatchOf(o.kind, attr) {
      case Forward =>
        ChildrenMatch(o, attr, status, at, 0);
        CombinedOutcome(ResultsFrom(o, attr, status, at, 0), s, WellLedFrom(o, attr, status, at, 0));
      case Unsupported =>
      case _ => SingleOutcome(s[0], WellLed(o, attr, status, at));
    }
  }

  lemma SingleOutcome(x: int, well: bool)
    requires well
    ensures Outcome([x], well) == x && (HasError([x]) ==> Lead([x]) == x && !IsWarning(x))
  {
    assert x in [x] && [x][1..] == [];
    LeadConcat([x], []);
    if IsError(x) {
      FirstErrorIsError([x]);
    }
  }

  lemma {:induction false} ChildrenMatch(o: Obj, attr: Attr, status: Pos -> int, at: Pos, i: nat)
    requires i <= |o.children|
    ensures Matches(ResultsFrom(o, attr, status, at, i), StatusesFrom(o, attr, status, at, i),
                    WellLedFrom(o, attr, status, at, i))
    decreases o, 0, |o.children| - i
  {
    if i < |o.children| {
      var c := o.children[i];
      var s, well := Statuses(c, attr, status, at + [i]), WellLed(c, attr, status, at + [i]);
      ResultClosedForm(c, attr, status, at + [i]);
      ChildMatches(s, well);
      ChildrenMatch(o, attr, status, at, i + 1);
      MatchesConcat([Outcome(s, well)], s, HasError(s) ==> well,
                    ResultsFrom(o, attr, status, at, i + 1), StatusesFrom(o, attr, status, at, i + 1),
                    WellLedFrom(o, attr, status, at, i + 1));
    }
  }

  // ----- Against the promise -----

  /** A failure is due whatever the order: a handler reports one, or two report different errors. */
  predicate FailsAnyway(s: seq<int>)
  {
    FAILURE in s || exists x, y :: x in s && y in s && IsError(x) && IsError(y) && x != y
  }

  predicate NoWarnings(s: seq<int>) { forall x :: x in s ==> !IsWarning(x) }

  lemma PromisedOutcome(s: seq<int>, well: bool)
    ensures Outcome(s, well) == Promised(Elements(s)) <==>
            if HasError(s) then well || FailsAnyway(s) else NoWarnings(s)
  {
    LeadConcat(s, []);
    assert forall x :: x in Elements(s) <==> x in s;
    if HasError(s) {
      FirstErrorIsError(s);
      PromisedWithErrors(s);
    }
  }

  lemma PromisedWithErrors(s: seq<int>)
    requires HasError(s)
    ensures Promised(Elements(s)) == if ErrorsAre(s, FirstError(s)) then FirstError(s) else FAILURE
  {
    FirstErrorIsError(s);
    var es := Elements(s);
    assert forall x :: x in es <==> x in s;
    assert FirstError(s) in es;
    var e :| e in es && IsError(e);
  }

  /** The forwarded set returns what the comment promises exactly when no warning is in the way. */
  lemma KeepsPromiseIff(o: Obj, attr: Attr, status: Pos -> int, at: Pos)
    ensures var s := Statuses(o, attr, status, at);
            Result(o, attr, status, at) == Promised(Elements(s)) <==>
            if HasError(s) then WellLed(o, attr, status, at) || FailsAnyway(s) else NoWarnings(s)
  {
    ResultClosedForm(o, attr, status, at);
    PromisedOutcome(Statuses(o, attr, status, at), WellLed(o, attr, status, at));
  }

  lemma {:induction false} NoWarningsWellLed(o: Obj, attr: Attr, status: Pos -> int, at: Pos)
    requires NoWarnings(Statuses(o, attr, status, at))
    ensures WellLed(o, attr, status, at)
    decreases o, 1, 0
  {
    LeadConcat(Statuses(o, attr, status, at), []);
    if DispatchOf(o.kind, attr) == Forward {
      NoWarningsWellLedFrom(o, attr, status, at, 0);
    }
  }

  lemma {:induction false} NoWarningsWellLedFrom(o: Obj, attr: Attr, status: Pos -> int, at: Pos, i: nat)
    requires i <= |o.children| && NoWarnings(StatusesFrom(o, attr, status, at, i))
    ensures WellLedFrom(o, attr, status, at, i)
    decreases o, 0, |o.children| - i
  {
    if i < |o.children| {
      NoWarningsWellLed(o.children[i], attr, status, at + [i]);
      NoWarningsWellLedFrom(o, attr, status, at, i + 1);
    }
  }

  /** Handlers that return no warnings: only the set of their statuses matters, not the shape of the tree or the
      order. */
  lemma WithoutWarnings(o: Obj, attr: Attr, status: Pos -> int, at: Pos)
    requires NoWarnings(Statuses(o, attr, status, at))
    ensures Result(o, attr, status, at) == Promised(Elements(Statuses(o, attr, status, at)))
  {
    NoWarningsWellLed(o, attr, status, at);
    KeepsPromiseIff(o, attr, status, at);
  }

  /** A handler's warning is returned although warnings are said to be ignored. */
  lemma WarningIsNotIgnored()
    ensures var o := Obj(NODE, [Obj(HT, [])]);
            && Result(o, GOV, _ => 1, []) == 1
            && Promised(Elements(Statuses(o, GOV, _ => 1, []))) == SUCCESS
  {
    var o, f := Obj(NODE, [Obj(HT, [])]), (p: Pos) => 1;
    assert ResultsFrom(o, GOV, f, [], 1) == [] && StatusesFrom(o, GOV, f, [], 1) == [];
    assert ResultsFrom(o, GOV, f, [], 0) == [1] && Statuses(o, GOV, f, []) == [1];
    assert 1 in Elements([1]);
  }

  /** A warning turns the one error that all failing handlers agree on into a general failure. */
  lemma WarningHidesError()
    ensures Combined([1, READ_ONLY]) == FAILURE && Combined([READ_ONLY, 1]) == READ_ONLY
  {
    assert READ_ONLY in [1, READ_ONLY] && READ_ONLY in [READ_ONLY, 1];
  }
}
