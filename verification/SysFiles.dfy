/** The catalog of system files and its configuration file (lib/utility.c:199-419): all lines take effect or
    none does.  Allocation failures are not modelled. */
module SysFiles {
  import opened Options
  import opened FormatMatch
  import opened SysFileLines

  // ----- What a configuration file says -----

  /** The index of the first entry with the key, or the number of entries. */
  function Find(keys: seq<string>, key: string): (e: nat)
    ensures e <= |keys|
  {
    if keys == [] || keys[0] == key then 0 else 1 + Find(keys[1..], key)
  }

  predicate IsChroot(line: string) { Parse(line).Setting? && Parse(line).key == "chroot" }

  /** The line gives entry e a value. */
  predicate Sets(keys: seq<string>, line: string, e: nat)
  {
    e < |keys| && Parse(line).Setting? && !IsChroot(line) && Find(keys, Parse(line).key) == e
  }

  predicate Compatible(default: string, val: string)
  {
    Specs(default) == Specs(val) && (default == "" <==> val == "")
  }

  /** Line k is empty, a chroot, or gives a compatible value to an entry that no earlier line sets. */
  predicate GoodLine(keys: seq<string>, defaults: seq<string>, lines: seq<string>, k: nat)
    requires k < |lines| && |defaults| == |keys|
  {
    var line := Parse(lines[k]);
    || line.Blank?
    || IsChroot(lines[k])
    || (line.Setting? && var e := Find(keys, line.key);
        && e < |keys|
        && Compatible(defaults[e], line.val)
        && forall j :: 0 <= j < k ==> !Sets(keys, lines[j], e))
  }

  /** The key is that of a catalog entry whose default has the same specifiers as the value. */
  ghost predicate Fits(keys: seq<string>, defaults: seq<string>, key: string, val: string)
    requires |defaults| == |keys|
  {
    exists e :: 0 <= e < |keys| && keys[e] == key && (forall j :: 0 <= j < e ==> keys[j] != key)
                && Specs(defaults[e]) == Specs(val) && (defaults[e] == "" <==> val == "")
  }

  /** An earlier line sets the same key. */
  predicate SetBefore(lines: seq<string>, k: nat)
    requires k < |lines| && Parse(lines[k]).Setting?
  {
    exists j :: 0 <= j < k && Parse(lines[j]).Setting? && Parse(lines[j]).key == Parse(lines[k]).key
  }

  /** A line is good exactly when it is not malformed and, unless it is a chroot, any setting on it has a known key, a
      value that fits, and no earlier line for the same key. */
  lemma GoodLineIff(keys: seq<string>, defaults: seq<string>, lines: seq<string>, k: nat)
    requires k < |lines| && |defaults| == |keys|
    ensures var line := Parse(lines[k]);
            GoodLine(keys, defaults, lines, k) <==>
              && !line.Malformed?
              && (line.Setting? && line.key != "chroot" ==>
                    Fits(keys, defaults, line.key, line.val) && !SetBefore(lines, k))
  {
    var line := Parse(lines[k]);
    if line.Setting? && line.key != "chroot" {
      var e := Find(keys, line.key);
      FindIff(keys, line.key, e);
      if e < |keys| {
        SetsIff(keys, lines, k, e);
        FitsIff(keys, defaults, line.key, line.val, e);
      }
    }
  }

  lemma FitsIff(keys: seq<string>, defaults: seq<string>, key: string, val: string, e: nat)
    requires |defaults| == |keys| && e < |keys| && keys[e] == key && forall j :: 0 <= j < e ==> keys[j] != key
    ensures Fits(keys, defaults, key, val) <==> Compatible(defaults[e], val)
  {
    if Fits(keys, defaults, key, val) {
      var f :| 0 <= f < |keys| && keys[f] == key && (forall j :: 0 <= j < f ==> keys[j] != key)
               && Specs(defaults[f]) == Specs(val) && (defaults[f] == "" <==> val == "");
      assert f == e;
    }
  }

  lemma SetsIff(keys: seq<string>, lines: seq<string>, k: nat, e: nat)
    requires k < |lines| && Parse(lines[k]).Setting? && Parse(lines[k]).key != "chroot"
    requires e < |keys| && Find(keys, Parse(lines[k]).key) == e
    ensures SetBefore(lines, k) <==> exists j :: 0 <= j < k && Sets(keys, lines[j], e)
  {
    FindIff(keys, Parse(lines[k]).key, e);
    forall j | 0 <= j < k
      ensures Sets(keys, lines[j], e) <==> Parse(lines[j]).Setting? && Parse(lines[j]).key == Parse(lines[k]).key
    {
      if Parse(lines[j]).Setting? {
        FindIff(keys, Parse(lines[j]).key, e);
      }
    }
  }

  function TrimSlashes(v: string): string
  {
    if v != "" && v[|v| - 1] == '/' then TrimSlashes(v[..|v| - 1]) else v
  }

  /** Find gives the first entry with the key. */
  lemma {:induction false} FindIff(keys: seq<string>, key: string, e: nat)
    ensures Find(keys, key) == e <==>
            e <= |keys| && (e < |keys| ==> keys[e] == key) && forall j :: 0 <= j < e ==> keys[j] != key
  {
    if keys == [] || keys[0] == key {
    } else {
      if e > 0 {
        FindIff(keys[1..], key, e - 1);
        assert e <= |keys| ==> forall j :: 0 <= j < e - 1 ==> keys[1..][j] == keys[j + 1];
        if e <= |keys| && forall j :: 0 <= j < e - 1 ==> keys[1..][j] != key {
          forall j | 0 <= j < e
            ensures keys[j] != key
          {
            assert j > 0 ==> keys[j] == keys[1..][j - 1];
          }
        }
      }
    }
  }

  /** What is cut off are slashes, and all of those at the end. */
  lemma {:induction false} TrimSlashesIff(v: string, r: string)
    ensures TrimSlashes(v) == r <==>
            r <= v && (r != "" ==> r[|r| - 1] != '/') && forall i :: |r| <= i < |v| ==> v[i] == '/'
  {
    assert r <= v && |r| == |v| ==> r == v;
    if v != "" && v[|v| - 1] == '/' {
      var t := v[..|v| - 1];
      TrimSlashesIff(t, r);
      assert r <= v && |r| < |v| ==> r <= t;
    } else {
      assert v != "" ==> v[|v| - 1] != '/';
    }
  }

  /** The directory of the last chroot line. */
  function RootOf(lines: seq<string>): Option<string>
  {
    if lines == [] then None
    else
      var last := lines[|lines| - 1];
      if IsChroot(last) then Some(TrimSlashes(Parse(last).val)) else RootOf(lines[..|lines| - 1])
  }

  /** It is the last chroot line that counts. */
  lemma {:induction false} RootIsLast(lines: seq<string>, k: nat)
    requires k < |lines| && IsChroot(lines[k]) && forall j :: k < j < |lines| ==> !IsChroot(lines[j])
    ensures RootOf(lines) == Some(TrimSlashes(Parse(lines[k]).val))
  {
    if k < |lines| - 1 {
      RootIsLast(lines[..|lines| - 1], k);
    }
  }

  lemma {:induction false} NoRoot(lines: seq<string>)
    ensures RootOf(lines) == None <==> forall j :: 0 <= j < |lines| ==> !IsChroot(lines[j])
  {
    if lines != [] {
      NoRoot(lines[..|lines| - 1]);
    }
  }

  function Rooted(root: Option<string>, default: string): string
  {
    if root.Some? then root.value + default else default
  }

  /** The first k lines are good, and the values are theirs; an entry they do not set has none. */
  ghost predicate Accepted(keys: seq<string>, defaults: seq<string>, lines: seq<string>, k: nat,
                           vals: seq<Option<string>>)
  {
    && k <= |lines| && |keys| == |defaults| == |vals|
    && (forall j :: 0 <= j < k ==> GoodLine(keys, defaults, lines, j))
    && (forall e :: 0 <= e < |keys| ==> HasValueOf(keys, lines[..k], e, vals[e]))
  }

  ghost predicate HasValueOf(keys: seq<string>, lines: seq<string>, e: nat, val: Option<string>)
  {
    match val
    case None => forall j :: 0 <= j < |lines| ==> !Sets(keys, lines[j], e)
    case Some(v) => exists j :: 0 <= j < |lines| && Sets(keys, lines[j], e) && Parse(lines[j]).val == v
  }

  /** The catalog after a configuration: the values of a good file, the chroot put before the defaults of the
      other entries; all defaults after a bad one. */
  ghost predicate Configured(keys: seq<string>, defaults: seq<string>, lines: seq<string>, vals: seq<string>)
  {
    && |vals| == |keys| == |defaults|
    && if forall k :: 0 <= k < |lines| ==> GoodLine(keys, defaults, lines, k)
       then forall e :: 0 <= e < |keys| ==> EntryFrom(keys, lines, e, defaults[e], vals[e])
       else vals == defaults
  }

  ghost predicate EntryFrom(keys: seq<string>, lines: seq<string>, e: nat, default: string, val: string)
  {
    if SetSomewhere(keys, lines, e) then HasValueOf(keys, lines, e, Some(val))
    else val == Rooted(RootOf(lines), default)
  }

  ghost predicate SetSomewhere(keys: seq<string>, lines: seq<string>, e: nat)
  {
    exists j :: 0 <= j < |lines| && Sets(keys, lines[j], e)
  }

  // ----- One line -----

  lemma HasValueSkip(keys: seq<string>, lines: seq<string>, line: string, e: nat, val: Option<string>)
    requires HasValueOf(keys, lines, e, val) && !Sets(keys, line, e)
    ensures HasValueOf(keys, lines + [line], e, val)
  {
    var l := lines + [line];
    if val.Some? {
      var j :| 0 <= j < |lines| && Sets(keys, lines[j], e) && Parse(lines[j]).val == val.value;
      assert l[j] == lines[j];
    } else {
      forall j | 0 <= j < |l|
        ensures !Sets(keys, l[j], e)
      {
        assert j < |lines| ==> l[j] == lines[j];
      }
    }
  }

  lemma HasValueSet(keys: seq<string>, lines: seq<string>, line: string, e: nat)
    requires Sets(keys, line, e)
    ensures HasValueOf(keys, lines + [line], e, Some(Parse(line).val))
  {
    assert (lines + [line])[|lines|] == line;
  }

  /** A line that sets no entry. */
  lemma AcceptOther(keys: seq<string>, defaults: seq<string>, lines: seq<string>, k: nat, vals: seq<Option<string>>)
    requires Accepted(keys, defaults, lines, k, vals) && k < |lines|
    requires Parse(lines[k]).Blank? || IsChroot(lines[k])
    ensures Accepted(keys, defaults, lines, k + 1, vals)
  {
    assert lines[..k + 1] == lines[..k] + [lines[k]];
    forall e | 0 <= e < |keys|
      ensures HasValueOf(keys, lines[..k + 1], e, vals[e])
    {
      HasValueSkip(keys, lines[..k], lines[k], e, vals[e]);
    }
  }

  /** A line that sets entry e: it is good exactly when the entry has no value yet and the formats agree. */
  lemma SettingGoodIff(keys: seq<string>, defaults: seq<string>, lines: seq<string>, k: nat,
                       vals: seq<Option<string>>, e: nat)
    requires Accepted(keys, defaults, lines, k, vals) && k < |lines| && Sets(keys, lines[k], e)
    ensures GoodLine(keys, defaults, lines, k) <==> vals[e] == None && Compatible(defaults[e], Parse(lines[k]).val)
  {
    assert HasValueOf(keys, lines[..k], e, vals[e]);
    if vals[e].None? {
      forall j | 0 <= j < k
        ensures !Sets(keys, lines[j], e)
      {
        assert lines[..k][j] == lines[j];
      }
    } else {
      var j :| 0 <= j < |lines[..k]| && Sets(keys, lines[..k][j], e);
      assert Sets(keys, lines[j], e);
    }
  }

  lemma AcceptSetting(keys: seq<string>, defaults: seq<string>, lines: seq<string>, k: nat,
                      vals: seq<Option<string>>, e: nat)
    requires Accepted(keys, defaults, lines, k, vals) && k < |lines| && Sets(keys, lines[k], e)
    requires GoodLine(keys, defaults, lines, k)
    ensures Accepted(keys, defaults, lines, k + 1, vals[e := Some(Parse(lines[k]).val)])
  {
    var vals' := vals[e := Some(Parse(lines[k]).val)];
    assert lines[..k + 1] == lines[..k] + [lines[k]];
    forall i | 0 <= i < |keys|
      ensures HasValueOf(keys, lines[..k + 1], i, vals'[i])
    {
      if i == e {
        HasValueSet(keys, lines[..k], lines[k], e);
      } else {
        HasValueSkip(keys, lines[..k], lines[k], i, vals[i]);
      }
    }
  }

  lemma RootNext(lines: seq<string>, k: nat)
    requires k < |lines|
    ensures RootOf(lines[..k + 1]) ==
            if IsChroot(lines[k]) then Some(TrimSlashes(Parse(lines[k]).val)) else RootOf(lines[..k])
  {
    assert lines[..k + 1][..k] == lines[..k];
  }

  method TrimTrailingSlashes(v: string) returns (r: string)
    ensures r == TrimSlashes(v)
  {
    var p := |v|;
    assert v[..p] == v;
    while p > 0 && v[p - 1] == '/'
      invariant p <= |v| && TrimSlashes(v[..p]) == TrimSlashes(v)
    {
      assert v[..p][..p - 1] == v[..p - 1];
      p := p - 1;
    }
    r := v[..p];
  }

  method FindKey(keys: seq<string>, key: string) returns (e: nat)
    ensures e == Find(keys, key)
  {
    e := 0;
    assert keys[0..] == keys;
    while e < |keys| && keys[e] != key
      invariant e <= |keys| && e + Find(keys[e..], key) == Find(keys, key)
    {
      assert keys[e..][1..] == keys[e + 1..];
      e := e + 1;
    }
  }

  // ----- The catalog -----

  /** Entries with a value, which configuration clears and sets again, and the backup of their defaults. */
  class Catalog {
    const keys: seq<string>
    const backup: seq<string>
    var vals: seq<Option<string>>

    ghost predicate Valid()
      reads this
    {
      |keys| == |backup| == |vals|
    }

    constructor (keys: seq<string>, defaults: seq<string>)
      requires |keys| == |defaults|
      ensures Valid() && this.keys == keys && backup == defaults
    {
      this.keys, backup := keys, defaults;
      vals := seq(|keys|, i => None);
    }

    method Clear()
      requires Valid()
      modifies this
      ensures Valid() && forall e :: 0 <= e < |vals| ==> vals[e] == None
    {
      vals := seq(|keys|, i => None);
    }

    /** One setting for an entry (lib/utility.c:315-356). */
    method SetEntry(ghost lines: seq<string>, ghost k: nat, key: string, val: string) returns (ok: bool)
      requires Accepted(keys, backup, lines, k, vals) && k < |lines|
      requires Parse(lines[k]) == Setting(key, val) && key != "chroot"
      modifies this
      ensures ok <==> GoodLine(keys, backup, lines, k)
      ensures ok ==> Accepted(keys, backup, lines, k + 1, vals)
      ensures |vals| == |keys|
    {
      var e := FindKey(keys, key);
      if e == |keys| {
        return false;
      }
      SettingGoodIff(keys, backup, lines, k, vals, e);
      if vals[e] != None {
        return false;
      }
      ok := Fmtmatch(backup[e], val);
      if ok {
        AcceptSetting(keys, backup, lines, k, vals, e);
        vals := vals[e := Some(val)];
      }
    }

    /** The lines, in order, up to the first bad one (lib/utility.c:251-357). */
    method ReadLines(lines: seq<string>) returns (ok: bool, root: Option<string>)
      requires Valid() && forall e :: 0 <= e < |vals| ==> vals[e] == None
      modifies this
      ensures Valid() && (ok <==> forall k :: 0 <= k < |lines| ==> GoodLine(keys, backup, lines, k))
      ensures ok ==> Accepted(keys, backup, lines, |lines|, vals) && root == RootOf(lines)
    {
      root := None;
      var k := 0;
      while k < |lines|
        invariant Accepted(keys, backup, lines, k, vals) && root == RootOf(lines[..k])
      {
        RootNext(lines, k);
        var line := ParseLine(lines[k]);
        match line {
          case Blank =>
            AcceptOther(keys, backup, lines, k, vals);
          case Malformed =>
            assert !GoodLine(keys, backup, lines, k);
            return false, root;
          case Setting(key, val) =>
            if key == "chroot" {
              AcceptOther(keys, backup, lines, k, vals);
              var dir := TrimTrailingSlashes(val);
              root := Some(dir);
            } else {
              ok := SetEntry(lines, k, key, val);
              if !ok {
                return;
              }
            }
        }
        k := k + 1;
      }
      assert lines[..k] == lines;
      ok := true;
    }

    /** Entries without a value get the default, behind the given directory if there is one
        (lib/utility.c:366-386, 409-415). */
    method Fill(root: Option<string>)
      requires Valid()
      modifies this
      ensures Valid()
      ensures forall e :: 0 <= e < |vals| ==>
                vals[e] == if old(vals[e]).Some? then old(vals[e]) else Some(Rooted(root, backup[e]))
    {
      var e := 0;
      while e < |keys|
        invariant 0 <= e <= |keys| == |vals|
        invariant forall i :: 0 <= i < e ==>
                    vals[i] == if old(vals[i]).Some? then old(vals[i]) else Some(Rooted(root, backup[i]))
        invariant forall i :: e <= i < |keys| ==> vals[i] == old(vals[i])
      {
        if vals[e] == None {
          vals := vals[e := Some(Rooted(root, backup[e]))];
        }
        e := e + 1;
      }
    }

    ghost function Values(): seq<string>
      reads this
    {
      seq(|vals|, e requires 0 <= e < |vals| reads this => if vals[e].Some? then vals[e].value else "")
    }

    /** configure_sysfiles: a missing file configures nothing, a bad line undoes everything. */
    method Configure(file: Option<seq<string>>)
      requires Valid()
      modifies this
      ensures Valid() && forall e :: 0 <= e < |vals| ==> vals[e].Some?
      ensures Configured(keys, backup, if file.Some? then file.value else [], Values())
    {
      Clear();
      ghost var lines := if file.Some? then file.value else [];
      var ok, root := true, None;
      if file.Some? {
        ok, root := ReadLines(file.value);
      }
      if !ok {
        Clear();
        root := None;
      }
      ghost var read := vals;
      Fill(root);
      if ok {
        forall e | 0 <= e < |keys|
          ensures EntryFrom(keys, lines, e, backup[e], Values()[e])
        {
          assert lines[..|lines|] == lines;
          FilledEntry(keys, lines, e, backup[e], read[e]);
        }
      } else {
        assert Values() == backup;
      }
    }
  }

  lemma FilledEntry(keys: seq<string>, lines: seq<string>, e: nat, default: string, val: Option<string>)
    requires HasValueOf(keys, lines, e, val)
    ensures EntryFrom(keys, lines, e, default, if val.Some? then val.value else Rooted(RootOf(lines), default))
  {
  }

  // ----- What callers rely on -----

  lemma SetKeepsSpecs(keys: seq<string>, defaults: seq<string>, lines: seq<string>, e: nat, val: string)
    requires |keys| == |defaults| && e < |keys| && HasValueOf(keys, lines, e, Some(val))
    requires forall k :: 0 <= k < |lines| ==> GoodLine(keys, defaults, lines, k)
    ensures Specs(val) == Specs(defaults[e])
  {
    var j :| 0 <= j < |lines| && Sets(keys, lines[j], e) && Parse(lines[j]).val == val;
    assert GoodLine(keys, defaults, lines, j);
  }

  /** Every entry can be used with its default's arguments exactly when the configuration is rejected, sets
      every entry, or has no chroot with a '%' in it. */
  lemma SpecifiersKeptIff(keys: seq<string>, defaults: seq<string>, lines: seq<string>, vals: seq<string>)
    requires Configured(keys, defaults, lines, vals)
    ensures (forall e :: 0 <= e < |keys| ==> Specs(vals[e]) == Specs(defaults[e])) <==>
            || (exists k :: 0 <= k < |lines| && !GoodLine(keys, defaults, lines, k))
            || (forall e :: 0 <= e < |keys| ==> SetSomewhere(keys, lines, e))
            || RootOf(lines) == None
            || '%' !in RootOf(lines).value
  {
    if forall k :: 0 <= k < |lines| ==> GoodLine(keys, defaults, lines, k) {
      forall e | 0 <= e < |keys|
        ensures Specs(vals[e]) == Specs(defaults[e]) <==>
                SetSomewhere(keys, lines, e) || RootOf(lines) == None || '%' !in RootOf(lines).value
      {
        EntrySpecs(keys, defaults, lines, e, vals[e]);
      }
    }
  }

  lemma EntrySpecs(keys: seq<string>, defaults: seq<string>, lines: seq<string>, e: nat, val: string)
    requires |keys| == |defaults| && e < |keys| && EntryFrom(keys, lines, e, defaults[e], val)
    requires forall k :: 0 <= k < |lines| ==> GoodLine(keys, defaults, lines, k)
    ensures Specs(val) == Specs(defaults[e]) <==>
            SetSomewhere(keys, lines, e) || RootOf(lines) == None || '%' !in RootOf(lines).value
  {
    if SetSomewhere(keys, lines, e) {
      SetKeepsSpecs(keys, defaults, lines, e, val);
    } else if RootOf(lines).Some? {
      PrefixKeepsSpecsIff(RootOf(lines).value, defaults[e]);
    }
  }

  /** A file that only sets a chroot puts it before every default. */
  lemma ChrootOnly(keys: seq<string>, defaults: seq<string>, line: string, root: string, vals: seq<string>)
    requires |keys| == |defaults| == |vals| && Parse(line) == Setting("chroot", root) && TrimSlashes(root) == root
    requires forall e :: 0 <= e < |keys| ==> vals[e] == root + defaults[e]
    ensures Configured(keys, defaults, [line], vals)
    ensures forall e :: 0 <= e < |keys| ==> (Specs(vals[e]) == Specs(defaults[e]) <==> '%' !in root)
  {
    assert IsChroot(line) && RootOf([line]) == Some(root);
    forall e | 0 <= e < |keys|
      ensures Specs(vals[e]) == Specs(defaults[e]) <==> '%' !in root
    {
      PrefixKeepsSpecsIff(root, defaults[e]);
    }
  }

  lemma PercentLine()
    ensures Parse("chroot = /a%d") == Setting("chroot", "/a%d")
  {
    var w := ["", " ", " ", ""];
    assert "chroot = /a%d" == w[0] + "chroot" + w[1] + "=" + w[2] + "/a%d" + w[3];
    ParseSpelled("chroot = /a%d", "chroot", "/a%d", w);
  }

  /** The failing family is not empty: a chroot with a '%' puts a second specifier before the default's. */
  lemma ChrootChangesSpecifiers() returns (keys: seq<string>, defaults: seq<string>, line: string, vals: seq<string>)
    ensures keys == ["power"] && defaults == ["/sys/cap%d"] && line == "chroot = /a%d"
    ensures Configured(keys, defaults, [line], vals) && Specs(vals[0]) != Specs(defaults[0])
  {
    var root := "/a%d";
    keys, defaults, line := ["power"], ["/sys/cap%d"], "chroot = /a%d";
    vals := [root + defaults[0]];
    PercentLine();
    assert root[2] == '%';
    ChrootOnly(keys, defaults, line, root, vals);
  }
}
