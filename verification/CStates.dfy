/** The C-state limit as the hardware keeps it: one `disable` file per idle state
    (daemon/pwrapi_worker.c:291-331, 423-461).  Reading back what was written makes the limit behave as the
    single cell that Arbitration takes it for. */
module CStates {

  /** State v and all shallower ones are enabled, and the next one, if any, is not. */
  predicate IsLimit(disable: seq<nat>, v: nat)
  {
    && (v == 0 || v < |disable|)
    && (forall i :: 1 <= i <= v ==> disable[i] == 0)
    && (v + 1 < |disable| ==> disable[v + 1] > 0)
  }

  lemma LimitUnique(disable: seq<nat>, v: nat, w: nat)
    requires IsLimit(disable, v) && v != w
    ensures !IsLimit(disable, w)
  {
    if v < w {
      assert v + 1 < |disable| ==> disable[v + 1] > 0;
    } else {
      assert disable[w + 1] == 0;
    }
  }

  /** Whether the files of states 1 to k can be accessed. */
  predicate Accessible(broken: set<nat>, k: int) { forall i: nat :: 1 <= i <= k ==> i !in broken }

  /** write_cstate_limit: stops at the first file that cannot be written. */
  method WriteLimit(disable: array<nat>, broken: set<nat>, limit: nat) returns (ok: bool)
    modifies disable
    ensures ok <==> limit < disable.Length && Accessible(broken, disable.Length - 1)
    ensures ok ==> IsLimit(disable[..], limit)
    ensures forall i :: 0 <= i < disable.Length ==>
              disable[i] == if limit < disable.Length && 1 <= i && Accessible(broken, i)
                            then (if i > limit then 1 else 0) else old(disable[i])
  {
    var n := disable.Length;
    ok := limit < n;
    if !ok {
      return;
    }
    var i := 1;
    while i < n
      invariant 1 <= i <= n && Accessible(broken, i - 1)
      invariant forall j :: 1 <= j < i ==> disable[j] == if j > limit then 1 else 0
      invariant disable[0] == old(disable[0]) && (forall j :: i <= j < n ==> disable[j] == old(disable[j]))
    {
      if i in broken {
        return false;
      }
      disable[i] := if i > limit then 1 else 0;
      i := i + 1;
    }
  }

  /** read_cstate_limit: looks no further than the first disabled state. */
  method ReadLimit(disable: array<nat>, broken: set<nat>) returns (ok: bool, limit: nat)
    ensures ok ==> IsLimit(disable[..], limit)
    ensures ok ==> Accessible(broken, if limit + 1 < disable.Length then limit + 1 else limit)
    ensures !ok ==> exists k :: 1 <= k < disable.Length && k in broken && (forall i :: 1 <= i < k ==> disable[i] == 0)
  {
    var i := 1;
    ok, limit := true, 0;
    while i < disable.Length
      invariant 1 <= i && (i <= disable.Length || i == 1) && Accessible(broken, i - 1)
      invariant forall j :: 1 <= j < i ==> disable[j] == 0
    {
      if i in broken {
        return false, 0;
      }
      if disable[i] > 0 {
        break;
      }
      i := i + 1;
    }
    limit := i - 1;
  }

  /** A limit that was written is the limit read back. */
  method RoundTrip(disable: array<nat>, broken: set<nat>, limit: nat) returns (wrote: bool, read: bool, value: nat)
    modifies disable
    ensures wrote <==> limit < disable.Length && Accessible(broken, disable.Length - 1)
    ensures wrote ==> read && value == limit
    ensures limit >= disable.Length ==> disable[..] == old(disable[..])
  {
    wrote := WriteLimit(disable, broken, limit);
    read, value := ReadLimit(disable, broken);
    if wrote && value != limit {
      LimitUnique(disable[..], limit, value);
    }
  }
}
