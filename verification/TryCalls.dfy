/**
  What compaction does to a `try_call`, whose reference it neither counts as a use nor renumbers.  The number stays,
  and so means the entry that now has it.
 */
module TryCalls {
  import opened Options
  import opened Layouts
  import opened Clif
  import opened Mutators
  import opened Entities

  // ----- The entry that gets a number -----

  /** How many used entries come before entry `s`. */
  function UsedBelow(used: set<nat>, s: nat): nat {
    |set j | j in used && j < s|
  }

  lemma {:induction false} RankCounts(used: set<nat>, s: nat)
    ensures Rank(used, s) == UsedBelow(used, s)
  {
    if s == 0 {
      assert (set j | j in used && j < s) == {};
    } else {
      RankCounts(used, s - 1);
      var below := set j | j in used && j < s - 1;
      assert (set j | j in used && j < s) == below + if s - 1 in used then {s - 1} else {};
    }
  }

  /** Entry `s` of a table of `n` entries is kept, and has number `r` then. */
  ghost predicate BecomesNumber(used: set<nat>, n: nat, s: nat, r: nat) {
    s in used && s < n && UsedBelow(used, s) == r
  }

  lemma {:induction false} NumberAfter<T>(table: seq<T>, used: set<nat>, r: nat, s: nat)
    requires BecomesNumber(used, |table|, s, r)
    ensures r <= s && Lookup(Keep(table, used), r) == Some(table[s])
    ensures s == r <==> forall j: nat :: j <= r ==> j in used
  {
    RankCounts(used, s);
    KeepAt(table, used, s);
    RankMonotone(used, 0, s);
    hide Keep, UsedBelow;
    if s == r {
      RankGap(used, r);
    } else if forall j: nat :: j <= r ==> j in used {
      RankAll(used, r);
      RankMonotone(used, r, s);
    }
  }

  /** There is such an entry exactly if more than `r` entries are used. */
  lemma {:induction false} NumberTaken<T>(table: seq<T>, used: set<nat>, r: nat)
    ensures r < |Keep(table, used)| <==> r < UsedBelow(used, |table|)
    ensures r < |Keep(table, used)| <==> exists s :: BecomesNumber(used, |table|, s, r)
  {
    KeepSize(table, used);
    RankCounts(used, |table|);
    hide Keep, UsedBelow, Rank;
    if r < |Keep(table, used)| {
      var s := KeepFrom(table, used, r);
      RankCounts(used, s);
      assert BecomesNumber(used, |table|, s, r);
    }
    if s: nat :| BecomesNumber(used, |table|, s, r) {
      RankCounts(used, s);
      RankMonotone(used, s, |table|);
    }
  }

  // ----- A `try_call` in a function -----

  /** Entry `s` is kept, takes the number of entry `r`, and is the same callee. */
  ghost predicate SameCalleeAt(f: Func, used: set<nat>, r: nat, s: nat) {
    BecomesNumber(used, |f.extFuncs|, s, r) && CalleeOf(f, s) == CalleeOf(f, r)
  }

  /**
    After functions are compacted, a `try_call` that referred to entry `r` dangles exactly if at most `r` entries are
    used otherwise; if not it refers to what was the used entry with exactly `r` used ones before it.  So it means the
    same exactly if that one is the same callee.
   */
  lemma {:induction false} TryCallMeaning(f: Func, i: Inst)
    requires i in Flatten(f.layout) && Data(f.insts, i).format == TryCall && Data(f.insts, i).entity < |f.extFuncs|
    ensures var g, d, used := CompactExtFuncs(f), Data(f.insts, i), UsedBy(f, {Call, FuncAddr});
            var n, r := |f.extFuncs|, d.entity;
            && Data(g.insts, i) == d
            && (MeaningOf(g, d) == Callee(None) <==> UsedBelow(used, n) <= r)
            && (forall s :: BecomesNumber(used, n, s, r) ==> MeaningOf(g, d) == Callee(CalleeOf(f, s)))
            && (MeaningOf(g, d) == MeaningOf(f, d) <==> exists s :: SameCalleeAt(f, used, r, s))
  {
    hide Flatten, Keep, UsedBy, RenumberInsts, UsedBelow;
    var g, d, used := CompactExtFuncs(f), Data(f.insts, i), UsedBy(f, {Call, FuncAddr});
    var r := d.entity;
    RenumberInstsAt(f, {Call, FuncAddr}, used, |f.extFuncs|, i);
    NumberTaken(f.extFuncs, used, r);
    forall s | BecomesNumber(used, |f.extFuncs|, s, r) ensures MeaningOf(g, d) == Callee(CalleeOf(f, s)) {
      NumberAfter(f.extFuncs, used, r, s);
    }
    if MeaningOf(g, d) == MeaningOf(f, d) {
      var s :| BecomesNumber(used, |f.extFuncs|, s, r);
      assert SameCalleeAt(f, used, r, s);
    }
  }

  /** With different callees in the table that is so exactly if every entry up to its own is used otherwise. */
  lemma {:induction false} DistinctCallees(f: Func, i: Inst)
    requires i in Flatten(f.layout) && Data(f.insts, i).format == TryCall && Data(f.insts, i).entity < |f.extFuncs|
    requires forall j, k :: 0 <= j < k < |f.extFuncs| ==> CalleeOf(f, j) != CalleeOf(f, k)
    ensures var g, d := CompactExtFuncs(f), Data(f.insts, i);
            MeaningOf(g, d) == MeaningOf(f, d) <==> forall j: nat :: j <= d.entity ==> j in UsedBy(f, {Call, FuncAddr})
  {
    hide Flatten, Keep, UsedBy, RenumberInsts, UsedBelow, CompactExtFuncs, MeaningOf, CalleeOf;
    TryCallMeaning(f, i);
    var used, r := UsedBy(f, {Call, FuncAddr}), Data(f.insts, i).entity;
    forall s | BecomesNumber(used, |f.extFuncs|, s, r)
      ensures r <= s && (s == r <==> forall j: nat :: j <= r ==> j in used)
    {
      NumberAfter(f.extFuncs, used, r, s);
    }
    if forall j: nat :: j <= r ==> j in used {
      AllBelow(used, r);
      assert SameCalleeAt(f, used, r, r);
    }
  }

  lemma AllBelow(used: set<nat>, r: nat)
    requires forall j: nat :: j <= r ==> j in used
    ensures UsedBelow(used, r) == r
  {
    RankCounts(used, r);
    RankAll(used, r);
  }

  /** The other compactions leave what it means. */
  lemma OtherCompactions(f: Func, i: Inst, kind: nat)
    requires i in Flatten(f.layout) && Data(f.insts, i).format == TryCall && 0 < kind && MutateEntities(kind, f).outcome.Mutated?
    ensures var g := MutateEntities(kind, f).outcome.func; MeaningOf(g, Data(g.insts, i)) == MeaningOf(f, Data(f.insts, i))
  {
    hide Flatten, RenumberInsts, Renumber, Keep, UsedBy, MeaningOf;
    match kind
    case 1 => SignaturesKeepMeaning(f, i);
    case 2 => StackSlotsKeepMeaning(f, i);
    case _ => GlobalsKeepMeaning(f, i);
  }

  // ----- A function that is changed -----

  const Trying := InstData(TryCall, OtherOp(5), [], [BlockCall(1, [])], 1)
  const Second := InstData(Call, OtherOp(3), [], [], 2)
  const Third := InstData(Call, OtherOp(3), [], [], 3)
  const Leave := InstData(PlainFormat, Return, [], [], 0)

  /** `block0: try_call fn1, block1` and `block1: call fn2; call fn3; return`, with four functions. */
  const Switched := Func([LBlock(0, [0]), LBlock(1, [1, 2, 3])], map[0 := Trying, 1 := Second, 2 := Third, 3 := Leave],
                         map[], map[], map[], map[], [],
                         [ExtFunc(10, 0), ExtFunc(11, 0), ExtFunc(12, 0), ExtFunc(13, 0)], [7], [], [], map[], 4, 0)

  lemma SwitchedFlatten()
    ensures Flatten(Switched.layout) == [0, 1, 2, 3]
  {
    var l := Switched.layout;
    assert l[1..] == [LBlock(1, [1, 2, 3])] && l[1..][1..] == [];
    assert Flatten(l[1..]) == [1, 2, 3] + [];
    assert Flatten(l) == [0] + [1, 2, 3];
  }

  lemma OnceFour(s: seq<Inst>)
    requires s == [0, 1, 2, 3]
    ensures Once(s)
  {
    assert multiset(s) == multiset{0, 1, 2, 3};
  }

  lemma SwitchedLayout()
    ensures WfLayout(Switched.layout)
  {
    SwitchedFlatten();
    OnceFour(Flatten(Switched.layout));
    hide Flatten, Once;
  }

  /** The same function with other references. */
  ghost predicate LikeSwitched(f: Func, second: nat, third: nat) {
    && f == Switched.(insts := f.insts, extFuncs := f.extFuncs)
    && f.insts == map[0 := Trying, 1 := Second.(entity := second), 2 := Third.(entity := third), 3 := Leave]
  }

  lemma SwitchedUses()
    ensures UsedBy(Switched, {Call, FuncAddr}) == {2, 3}
  {
    SwitchedFlatten();
    hide Flatten;
    var all := Flatten(Switched.layout);
    assert all[1] == 1 && all[2] == 2;
    assert Data(Switched.insts, 1) == Second && Data(Switched.insts, 2) == Third;
    assert forall i :: i in all ==> i in {0, 1, 2, 3};
  }

  lemma SwitchedTerminated(f: Func, second: nat, third: nat)
    requires LikeSwitched(f, second, third)
    ensures Terminated(f)
  {
    assert EndsOnce(f.insts, [0]) && EndsOnce(f.insts, [1, 2, 3]);
    hide EndsOnce;
  }

  lemma SwitchedParams(f: Func)
    requires f.layout == Switched.layout && f.params == map[]
    ensures AllParams(f) == []
  {
    var l := Switched.layout;
    assert l[1..] == [LBlock(1, [1, 2, 3])] && l[1..][1..] == [];
    assert ParamsIn(map[], l[1..]) == [] + [];
  }

  lemma SwitchedBranches(f: Func, second: nat, third: nat)
    requires LikeSwitched(f, second, third)
    ensures TerminatorsOk(f)
  {
    assert BranchesLast(f.insts, [0]) && BranchesLast(f.insts, [1, 2, 3]);
    hide BranchesLast;
  }

  lemma SwitchedArity(f: Func, second: nat, third: nat)
    requires LikeSwitched(f, second, third)
    ensures AllArityOk(f) && forall i :: i in Flatten(f.layout) ==> i < 4
  {
    SwitchedFlatten();
    hide Flatten;
    forall i | i in Flatten(f.layout) ensures i < 4 && ArityOk(f.params, Data(f.insts, i)) {
      assert i in {0, 1, 2, 3};
    }
  }

  lemma SwitchedData(f: Func, second: nat, third: nat)
    requires LikeSwitched(f, second, third)
    ensures forall i :: i in f.insts ==> WfData(f.insts[i]) && i < 4
    ensures f.layout == Switched.layout && f.results == map[] && f.params == map[] && f.aliases == map[] && f.nextInst == 4
  {
    assert f.insts.Keys == {0, 1, 2, 3};
  }

  lemma SwitchedInv(f: Func, second: nat, third: nat)
    requires LikeSwitched(f, second, third)
    ensures Inv(f)
  {
    hide Flatten, WfLayout, TerminatorsOk, ParamsIn, AllArityOk, LikeSwitched, Switched, WfData;
    SwitchedLayout();
    SwitchedData(f, second, third);
    SwitchedParams(f);
    SwitchedArity(f, second, third);
    SwitchedBranches(f, second, third);
  }

  /** The reference of every call is in the table. */
  ghost predicate CalleesValid(f: Func) {
    forall i :: i in Flatten(f.layout) && Data(f.insts, i).format in {Call, TryCall} ==> Data(f.insts, i).entity < |f.extFuncs|
  }

  lemma SwitchedValid(f: Func, second: nat, third: nat)
    requires LikeSwitched(f, second, third) && 1 < |f.extFuncs| && second < |f.extFuncs| && third < |f.extFuncs|
    ensures CalleesValid(f)
  {
    SwitchedFlatten();
    hide Flatten;
    assert forall i :: i in Flatten(f.layout) ==> i in {0, 1, 2, 3};
  }

  lemma SwitchedRanks(used: set<nat>)
    requires used == {2, 3}
    ensures Rank(used, 2) == 0 && Rank(used, 3) == 1 && Rank(used, 4) == 2
  {
    assert Rank(used, 0) == 0;
    assert Rank(used, 1) == 0;
    assert Rank(used, 2) == 0;
    assert Rank(used, 3) == 1;
  }

  lemma SwitchedAt(used: set<nat>, i: Inst)
    requires used == {2, 3} && i < 4
    ensures Data(RenumberInsts(Switched, {Call, FuncAddr}, used, 4), i) ==
            if i == 1 then Second.(entity := 0) else if i == 2 then Third.(entity := 1) else Data(Switched.insts, i)
  {
    SwitchedRanks(used);
    SwitchedFlatten();
    hide Flatten, Rank, RenumberInsts;
    assert Flatten(Switched.layout)[i] == i;
    RenumberInstsAt(Switched, {Call, FuncAddr}, used, 4, i);
  }

  lemma RenumberedKeys(f: Func, formats: set<Format>, used: set<nat>, n: nat)
    ensures RenumberInsts(f, formats, used, n).Keys == f.insts.Keys
  {
    hide Flatten, Renumber;
  }

  lemma SwitchedRenumbered(used: set<nat>)
    requires used == {2, 3}
    ensures RenumberInsts(Switched, {Call, FuncAddr}, used, 4) ==
            map[0 := Trying, 1 := Second.(entity := 0), 2 := Third.(entity := 1), 3 := Leave]
  {
    hide RenumberInsts;
    RenumberedKeys(Switched, {Call, FuncAddr}, used, 4);
    SwitchedAt(used, 0);
    SwitchedAt(used, 1);
    SwitchedAt(used, 2);
    SwitchedAt(used, 3);
  }

  lemma SwitchedKept(used: set<nat>)
    requires used == {2, 3}
    ensures var kept := Keep(Switched.extFuncs, used); |kept| == 2 && kept[1] == ExtFunc(13, 0)
  {
    SwitchedRanks(used);
    KeepSize(Switched.extFuncs, used);
    KeepAt(Switched.extFuncs, used, 3);
    hide Keep, Rank;
  }

  lemma SwitchedCompacted()
    ensures var g := CompactExtFuncs(Switched); LikeSwitched(g, 0, 1) && |g.extFuncs| == 2 && g.extFuncs[1] == ExtFunc(13, 0)
  {
    SwitchedUses();
    hide UsedBy, RenumberInsts, Keep;
    SwitchedRenumbered(UsedBy(Switched, {Call, FuncAddr}));
    SwitchedKept(UsedBy(Switched, {Call, FuncAddr}));
  }

  /** Compaction makes the `try_call` of this function call another one; all references stay valid. */
  lemma {:induction false} TryCallChangesItsCallee()
    ensures var f, g := Switched, CompactExtFuncs(Switched);
            && Inv(f) && Terminated(f) && CalleesValid(f)
            && Inv(g) && Terminated(g) && CalleesValid(g)
            && MeaningOf(f, Data(f.insts, 0)) == Callee(Some((11, Some(7))))
            && MeaningOf(g, Data(g.insts, 0)) == Callee(Some((13, Some(7))))
  {
    hide Inv, Terminated, CalleesValid, CompactExtFuncs;
    var f, g := Switched, CompactExtFuncs(Switched);
    SwitchedCompacted();
    SwitchedTerminated(f, 2, 3);
    SwitchedTerminated(g, 0, 1);
    SwitchedInv(f, 2, 3);
    SwitchedInv(g, 0, 1);
    SwitchedValid(f, 2, 3);
    SwitchedValid(g, 0, 1);
  }
}
