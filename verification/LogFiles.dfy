/** Shifting the numbered log files of one log (lib/log.c:2030-2069): slot 0 is the file being
    written, slot i the i-th archive. */
module LogFiles {
  import opened Options

  type File = nat

  function At(slots: map<nat, File>, i: nat): Option<File>
  {
    if i in slots then Some(slots[i]) else None
  }

  /** A file moves up by one; a missing one is not an error for the caller. */
  function Moved(slots: map<nat, File>, i: nat): map<nat, File>
  {
    if i in slots then slots[i + 1 := slots[i]] - {i} else slots
  }

  /** Everything from slot k on has moved up by one within the first m slots; slot k is free; the
      slots below k and the slots from m on are as they were. */
  ghost predicate ShiftedFrom(was: map<nat, File>, now: map<nat, File>, m: nat, k: nat)
  {
    && (forall j: nat :: j < k || j >= m ==> At(now, j) == At(was, j))
    && (forall j: nat :: k < j < m ==> At(now, j) == At(was, j - 1))
    && (k < m ==> At(now, k) == None)
  }

  lemma MovedAt(slots: map<nat, File>, i: nat, j: nat)
    requires i + 1 !in slots
    ensures At(Moved(slots, i), j) == if j == i + 1 then At(slots, i) else if j == i then None else At(slots, j)
  {
  }

  /** One more rename extends the shift by one slot. */
  lemma MovedShifts(was: map<nat, File>, now: map<nat, File>, m: nat, i: nat)
    requires i + 1 < m && ShiftedFrom(was, now, m, i + 1)
    ensures i + 1 !in now && ShiftedFrom(was, Moved(now, i), m, i)
  {
    assert At(now, i + 1) == None;
    forall j: nat
      ensures j < i || j >= m ==> At(Moved(now, i), j) == At(was, j)
      ensures i < j < m ==> At(Moved(now, i), j) == At(was, j - 1)
    {
      MovedAt(now, i, j);
    }
    MovedAt(now, i, i);
  }

  class Directory {
    var slots: map<nat, File>

    /** unlink(2): fails for a reason other than a missing file, or leaves the slot empty. */
    method Unlink(i: nat, possible: bool) returns (ok: bool)
      modifies this
      ensures ok == possible
      ensures slots == if ok then old(slots) - {i} else old(slots)
    {
      ok := possible;
      if ok {
        slots := slots - {i};
      }
    }

    /** rename(2) to the next slot, which is free. */
    method Rename(src: nat, possible: bool) returns (ok: bool)
      requires src + 1 !in slots
      modifies this
      ensures ok == possible
      ensures slots == if ok then Moved(old(slots), src) else old(slots)
    {
      ok := possible;
      if ok && src in slots {
        slots := slots[src + 1 := slots[src]] - {src};
      }
    }

    /** The shift.  It may halt at any step; halted or not, no rename has overwritten a file, and of the
        old files at most the one in slot m - 1 is gone. */
    method Shift(m: nat, unlinkable: bool, renamable: seq<bool>) returns (done: bool, ghost k: nat)
      requires m >= 2 && |renamable| == m - 1
      modifies this
      ensures k <= m && ShiftedFrom(old(slots), slots, m, k)
      ensures done ==> k == 0
      ensures done <==> unlinkable && forall i :: 0 <= i < m - 1 ==> renamable[i]
      ensures forall j: nat :: j != m - 1 && j in old(slots) ==> Found(old(slots)[j], j, slots)
      ensures forall f :: f in slots.Values ==> f in old(slots).Values
    {
      k := m;
      done := Unlink(m - 1, unlinkable);
      if !done {
        return;
      }
      k := m - 1;
      var i := m - 1;
      while i > 0
        invariant i == k <= m - 1
        invariant ShiftedFrom(old(slots), slots, m, i)
        invariant forall j :: i <= j < m - 1 ==> renamable[j]
      {
        MovedShifts(old(slots), slots, m, i - 1);
        done := Rename(i - 1, renamable[i - 1]);
        if !done {
          break;
        }
        i := i - 1;
        k := i;
      }
      FilesKept(old(slots), slots, m, k);
    }
  }

  predicate Found(f: File, j: nat, slots: map<nat, File>)
  {
    At(slots, j) == Some(f) || At(slots, j + 1) == Some(f)
  }

  lemma FilesKept(was: map<nat, File>, now: map<nat, File>, m: nat, k: nat)
    requires 0 < m && k <= m && ShiftedFrom(was, now, m, k)
    ensures forall j: nat :: j != m - 1 && j in was ==> Found(was[j], j, now)
    ensures forall f :: f in now.Values ==> f in was.Values
  {
    forall j: nat | j != m - 1 && j in was
      ensures Found(was[j], j, now)
    {
      assert At(was, j) == Some(was[j]);
      if k <= j < m - 1 {
        assert At(now, j + 1) == At(was, j);
      }
    }
    forall f | f in now.Values
      ensures f in was.Values
    {
      var j :| j in now && now[j] == f;
      assert At(now, j) == Some(f);
      if k < j < m {
        assert At(was, j - 1) == Some(f);
      } else {
        assert At(was, j) == Some(f);
      }
    }
  }

  /** A completed shift renumbers every file, missing ones included, and frees slot 0. */
  lemma CompletedShift(was: map<nat, File>, now: map<nat, File>, m: nat, i: nat)
    requires m >= 2 && ShiftedFrom(was, now, m, 0) && i <= m - 2
    ensures At(now, i + 1) == At(was, i) && 0 !in now
  {
    assert At(now, i + 1) == At(was, i + 1 - 1);
  }
}
