/**
  Compaction in place: who uses an entry is collected first, then the table is rebuilt entry by entry and
  the users of each kept entry are overwritten.  No user is overwritten twice, so the result is the
  simultaneous renumbering.
 */
module EntityLoops {
  import opened Layouts
  import opened Clif
  import opened Mutators
  import opened Entities

  /** Whether instruction `i` refers to entry `r` through one of the formats. */
  predicate UsesEntry(f: Func, formats: set<Format>, i: Inst, r: nat) {
    Data(f.insts, i).format in formats && Data(f.insts, i).entity == r
  }

  ghost predicate UsageOk(f: Func, formats: set<Format>, s: seq<Inst>, usage: map<nat, seq<Inst>>) {
    && (forall r :: r in usage ==> usage[r] != [])
    && (forall r, i :: r in usage && i in usage[r] ==> i in s && UsesEntry(f, formats, i, r))
    && (forall i :: i in s && Data(f.insts, i).format in formats ==>
          Data(f.insts, i).entity in usage && i in usage[Data(f.insts, i).entity])
  }

  /** The instructions of `s` that refer to entry `r`, in their order. */
  function Users(f: Func, formats: set<Format>, s: seq<Inst>, r: nat): seq<Inst> {
    if s == [] then []
    else
      var n := |s| - 1;
      Users(f, formats, s[..n], r) + if UsesEntry(f, formats, s[n], r) then [s[n]] else []
  }

  ghost predicate CollectedFrom(f: Func, formats: set<Format>, s: seq<Inst>, usage: map<nat, seq<Inst>>) {
    forall r: nat :: if r in usage then usage[r] == Users(f, formats, s, r) != [] else Users(f, formats, s, r) == []
  }

  method CollectUsage(f: Func, formats: set<Format>) returns (usage: map<nat, seq<Inst>>)
    ensures CollectedFrom(f, formats, Flatten(f.layout), usage)
  {
    hide Flatten, CollectedFrom;
    var all := Flatten(f.layout);
    usage := map[];
    NoneCollected(f, formats, all[..0]);
    for k := 0 to |all|
      invariant CollectedFrom(f, formats, all[..k], usage)
    {
      var i := all[k];
      var d := Data(f.insts, i);
      CollectStep(f, formats, all[..k], usage, i);
      assert all[..k + 1] == all[..k] + [i];
      if d.format in formats {
        var before := if d.entity in usage then usage[d.entity] else [];
        usage := usage[d.entity := before + [i]];
      }
    }
    assert all[..|all|] == all;
  }

  lemma NoneCollected(f: Func, formats: set<Format>, s: seq<Inst>)
    requires s == []
    ensures CollectedFrom(f, formats, s, map[])
  {
  }

  lemma CollectStep(f: Func, formats: set<Format>, s: seq<Inst>, usage: map<nat, seq<Inst>>, i: Inst)
    requires CollectedFrom(f, formats, s, usage)
    ensures var d := Data(f.insts, i);
            var before := if d.entity in usage then usage[d.entity] else [];
            CollectedFrom(f, formats, s + [i], if d.format in formats then usage[d.entity := before + [i]] else usage)
  {
    assert (s + [i])[..|s|] == s;
    assert forall r: nat :: Users(f, formats, s + [i], r) == Users(f, formats, s, r) + if UsesEntry(f, formats, i, r) then [i] else [];
    hide Users;
  }

  lemma {:induction false} UsersIff(f: Func, formats: set<Format>, s: seq<Inst>, r: nat, i: Inst)
    ensures i in Users(f, formats, s, r) <==> i in s && UsesEntry(f, formats, i, r)
  {
    if s != [] {
      var n := |s| - 1;
      UsersIff(f, formats, s[..n], r, i);
      assert s == s[..n] + [s[n]];
    }
  }

  lemma {:induction false} CollectedOk(f: Func, formats: set<Format>, s: seq<Inst>, usage: map<nat, seq<Inst>>)
    requires CollectedFrom(f, formats, s, usage)
    ensures UsageOk(f, formats, s, usage)
  {
    hide Users, UsesEntry;
    forall r: nat, i ensures i in Users(f, formats, s, r) <==> i in s && UsesEntry(f, formats, i, r) {
      UsersIff(f, formats, s, r, i);
    }
    forall i | i in s && Data(f.insts, i).format in formats
      ensures Data(f.insts, i).entity in usage && i in usage[Data(f.insts, i).entity]
    {
      Uses(f, formats, i);
      assert i in Users(f, formats, s, Data(f.insts, i).entity);
    }
  }

  lemma Uses(f: Func, formats: set<Format>, i: Inst)
    requires Data(f.insts, i).format in formats
    ensures UsesEntry(f, formats, i, Data(f.insts, i).entity)
  {
  }

  /** The instructions after the entries below `r` are done. */
  ghost predicate RenumberedBelow(f: Func, formats: set<Format>, used: set<nat>, insts: map<Inst, InstData>, r: nat) {
    && insts.Keys == f.insts.Keys
    && forall i :: i in f.insts ==>
         var d := f.insts[i];
         insts[i] == if i in Flatten(f.layout) && d.format in formats && d.entity < r
                     then d.(entity := Rank(used, d.entity)) else d
  }

  /** Overwrites the users of one entry. */
  method Overwrite(insts: map<Inst, InstData>, users: seq<Inst>, n: nat) returns (r: map<Inst, InstData>)
    requires forall i :: i in users ==> i in insts
    ensures r.Keys == insts.Keys
    ensures forall i :: i in insts ==> r[i] == if i in users then insts[i].(entity := n) else insts[i]
  {
    r := insts;
    for k := 0 to |users|
      invariant r.Keys == insts.Keys
      invariant forall i :: i in insts ==> r[i] == if i in users[..k] then insts[i].(entity := n) else insts[i]
    {
      assert users[..k + 1] == users[..k] + [users[k]];
      assert users[k] in users;
      r := r[users[k] := r[users[k]].(entity := n)];
    }
    assert users[..|users|] == users;
  }

  /**
    Compacts one table.  `others` are the references to it that are not in instructions: the signatures of
    the external functions.
   */
  method CompactTable<T>(f: Func, formats: set<Format>, table: seq<T>, others: seq<nat>)
    returns (insts: map<Inst, InstData>, kept: seq<T>, renamed: seq<nat>)
    requires PlainFormat !in formats
    ensures var used := UsedBy(f, formats) + set k | 0 <= k < |others| :: others[k];
            && insts == RenumberInsts(f, formats, used, |table|)
            && kept == Keep(table, used)
            && |renamed| == |others| && forall k :: 0 <= k < |others| ==> renamed[k] == Renumber(used, |table|, others[k])
  {
    hide Flatten, Keep, Rank, CollectedFrom, Users, UsesEntry, UsageOk;
    var usage := CollectUsage(f, formats);
    CollectedOk(f, formats, Flatten(f.layout), usage);
    ghost var used := UsedBy(f, formats) + set k | 0 <= k < |others| :: others[k];
    insts, kept, renamed := f.insts, [], others;
    KeepNone(table, used);
    for r := 0 to |table|
      invariant kept == Keep(table[..r], used)
      invariant RenumberedBelow(f, formats, used, insts, r)
      invariant |renamed| == |others|
      invariant forall k :: 0 <= k < |others| ==> renamed[k] == if others[k] < r then Rank(used, others[k]) else others[k]
    {
      KeepStep(table, used, r);
      UsageMeans(f, formats, usage, others, r);
      if r in usage || r in others {
        var n := |kept|;
        kept := kept + [table[r]];
        if r in usage {
          UsersKnown(f, formats, usage, r);
          insts := Overwrite(insts, usage[r], n);
        }
        RenamedStep(f, formats, used, usage, r);
        var before := renamed;
        renamed := seq(|others|, k requires 0 <= k < |others| && |before| == |others| => if others[k] == r then n else before[k]);
      }
    }
    assert table[..|table|] == table;
    RenumberedAll(f, formats, used, insts, |table|);
  }

  lemma RenumberedAll(f: Func, formats: set<Format>, used: set<nat>, insts: map<Inst, InstData>, n: nat)
    requires RenumberedBelow(f, formats, used, insts, n) && UsedBy(f, formats) <= used
    ensures insts == RenumberInsts(f, formats, used, n)
  {
    hide Flatten, Rank;
    assert forall i :: i in f.insts && i in Flatten(f.layout) && f.insts[i].format in formats ==> Data(f.insts, i).entity in used;
  }

  lemma KeepNone<T>(table: seq<T>, used: set<nat>)
    ensures Keep(table[..0], used) == []
  {
  }

  lemma KeepStep<T>(table: seq<T>, used: set<nat>, r: nat)
    requires r < |table|
    ensures Keep(table[..r + 1], used) == Keep(table[..r], used) + if r in used then [table[r]] else []
    ensures |Keep(table[..r], used)| == Rank(used, r)
  {
    assert table[..r + 1][..r] == table[..r];
    KeepSize(table[..r], used);
  }

  lemma UsageMeans(f: Func, formats: set<Format>, usage: map<nat, seq<Inst>>, others: seq<nat>, r: nat)
    requires UsageOk(f, formats, Flatten(f.layout), usage)
    ensures var used := UsedBy(f, formats) + set k | 0 <= k < |others| :: others[k];
            (r in usage || r in others) <==> r in used
  {
    hide Flatten;
    if r in usage {
      assert usage[r][0] in usage[r];
      assert UsesEntry(f, formats, usage[r][0], r);
    }
  }

  lemma UsersKnown(f: Func, formats: set<Format>, usage: map<nat, seq<Inst>>, r: nat)
    requires UsageOk(f, formats, Flatten(f.layout), usage) && r in usage && PlainFormat !in formats
    ensures forall i :: i in usage[r] ==> i in f.insts
  {
    hide Flatten;
    forall i | i in usage[r] ensures i in f.insts {
      assert UsesEntry(f, formats, i, r);
    }
  }

  /** The users of an entry are exactly the instructions that refer to it. */
  lemma RenamedStep(f: Func, formats: set<Format>, used: set<nat>, usage: map<nat, seq<Inst>>, r: nat)
    requires UsageOk(f, formats, Flatten(f.layout), usage)
    ensures forall i :: i in f.insts ==>
              ((i in Flatten(f.layout) && f.insts[i].format in formats && f.insts[i].entity == r) <==>
               (r in usage && i in usage[r]))
  {
    hide Flatten;
    forall i | i in f.insts && r in usage && i in usage[r]
      ensures i in Flatten(f.layout) && f.insts[i].format in formats && f.insts[i].entity == r
    {
      assert UsesEntry(f, formats, i, r);
    }
    forall i | i in f.insts && i in Flatten(f.layout) && f.insts[i].format in formats && f.insts[i].entity == r
      ensures r in usage && i in usage[r]
    {
      assert Data(f.insts, i).entity == r;
    }
  }
}
