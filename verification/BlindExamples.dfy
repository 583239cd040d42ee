/**
  Oracles to which the theorems about blind ones apply: the check verifies the function and then fails where it
  finds a call.  One function on which a quiet pass is final although it changes something, and one on which it
  releases an instruction.
 */
module BlindExamples {
  import opened Layouts
  import opened Clif
  import opened Mutators
  import opened Reduction
  import opened Minimality
  import opened Entities
  import opened Settling
  import opened ReductionLimits
  import opened BlindOracles
  import opened BlindPasses
  import opened TryCalls

  // ----- Failing on calls -----

  /** A call after which the block goes on. */
  predicate IsCall(d: InstData) {
    d.format == Call && !IsTerminator(d)
  }

  ghost predicate ContainsCall(f: Func) {
    exists i :: i in Flatten(f.layout) && IsCall(Data(f.insts, i))
  }

  /** It fails on every function of at least `n` blocks that has a call. */
  ghost predicate FailsOnCalls(fails: Func -> bool, n: nat) {
    forall f :: fails(f) <==> ContainsCall(f) && n <= |f.layout|
  }

  lemma SameCalls(f: Func, g: Func)
    requires g.layout == f.layout && forall i :: i in Flatten(f.layout) ==> (IsCall(Data(g.insts, i)) <==> IsCall(Data(f.insts, i)))
    ensures ContainsCall(g) <==> ContainsCall(f)
  {
    hide Flatten, IsCall;
  }

  lemma TrapKeepsCalls(f: Func, i: Inst)
    requires Terminated(f) && Terminated(TrappedAt(f, i))
    ensures ContainsCall(TrappedAt(f, i)) <==> ContainsCall(f)
  {
    hide Flatten, Terminated;
    if i in Flatten(f.layout) {
      TrapsTerminator(f, i);
    }
    SameCalls(f, TrappedAt(f, i));
  }

  lemma RenamedKeepsCalls(f: Func, g: Func)
    requires Renamed(f, g)
    ensures ContainsCall(g) <==> ContainsCall(f)
  {
    hide Flatten, SameRef;
    forall i ensures IsCall(Data(g.insts, i)) <==> IsCall(Data(f.insts, i)) {
      assert SameShape(Data(f.insts, i), Data(g.insts, i));
    }
    SameCalls(f, g);
  }

  /** Such a failure sees neither traps for terminators nor the numbers in the tables. */
  lemma {:induction false} CallsAreBlind(fails: Func -> bool, n: nat)
    requires FailsOnCalls(fails, n)
    ensures TrapBlind(fails) && TableBlind(fails)
  {
    hide Flatten, Terminated, Renamed, ContainsCall;
    forall f, i | Terminated(f) && Terminated(TrappedAt(f, i)) ensures fails(TrappedAt(f, i)) == fails(f) {
      TrapKeepsCalls(f, i);
    }
    forall f, g | Terminated(f) && Renamed(f, g) ensures fails(g) == fails(f) {
      RenamedKeepsCalls(f, g);
      assert g.layout == f.layout by {
        RenamedLayout(f, g);
      }
    }
  }

  lemma RenamedLayout(f: Func, g: Func)
    requires Renamed(f, g)
    ensures g.layout == f.layout
  {
  }

  ghost predicate ChecksCalls(crash: Func -> bool, n: nat) {
    forall f :: crash(f) <==> Terminated(f) && ContainsCall(f) && n <= |f.layout|
  }

  /** With a verifier in front that looks at terminators, it is an oracle for which quiet passes are final. */
  lemma {:induction false} ChecksAreBlind(crash: Func -> bool, n: nat)
    requires ChecksCalls(crash, n)
    ensures Blind(crash)
  {
    hide Flatten, Terminated, Renamed, ContainsCall;
    forall f, i | Terminated(f) && Terminated(TrappedAt(f, i)) ensures crash(TrappedAt(f, i)) == crash(f) {
      TrapKeepsCalls(f, i);
    }
    forall f, g | Terminated(f) && Renamed(f, g) ensures crash(g) == crash(f) {
      RenamedKeepsCalls(f, g);
      RenamedLayout(f, g);
      RenamedAlike(f, g);
      hide Alike;
      AlikeTerminated(f, g);
    }
  }

  // ----- A pass that changes something and is final -----

  const CallSecond := InstData(Call, OtherOp(3), [], [], 1)

  /** `block0: call fn1; jump block1` and `block1: return`, with a function `fn0` that is not used. */
  const Caller := Func(Two, map[0 := CallSecond, 1 := JumpData, 2 := ReturnData], map[], map[], map[], map[], [],
                       [ExtFunc(10, 0), ExtFunc(11, 0)], [7], [], [], map[], 3, 0)

  lemma CallerInv()
    ensures Inv(Caller)
  {
    TwoInv(Caller);
  }

  lemma NoParamsInTwo()
    ensures ParamsIn(map[], Two) == []
  {
    assert Two[1..] == [LBlock(1, [2])] && Two[1..][1..] == [];
    assert ParamsIn(map[], Two[1..]) == [] + [];
  }

  lemma ArityInTwo(f: Func)
    requires f.layout == Two && f.params == map[] && (forall i :: i in f.insts ==> WfData(f.insts[i])) && Data(f.insts, 0).dests == []
    requires forall i, k :: i in f.insts && 0 <= k < |f.insts[i].dests| ==> f.insts[i].dests[k].args == []
    ensures AllArityOk(f) && TerminatorsOk(f)
  {
    hide Flatten;
    assert BranchesLast(f.insts, [0, 1]) && BranchesLast(f.insts, [2]);
    hide BranchesLast;
  }

  /** Functions of two such blocks. */
  lemma TwoInv(f: Func)
    requires f.layout == Two && f.params == map[] && f.aliases == map[] && f.nextInst == 3
    requires (forall i :: i in f.insts ==> WfData(f.insts[i]) && i < 3) && (forall i :: i in f.results ==> i < 3)
    requires forall i, k :: i in f.insts && 0 <= k < |f.insts[i].dests| ==> f.insts[i].dests[k].args == []
    requires Data(f.insts, 0).dests == []
    ensures Inv(f)
  {
    WfTwo();
    NoParamsInTwo();
    ArityInTwo(f);
    hide Flatten, WfLayout, AllArityOk, TerminatorsOk, ParamsIn, WfData, Two;
  }

  lemma TerminatedTwo(f: Func)
    requires f.layout == Two && !IsTerminator(Data(f.insts, 0)) && IsTerminator(Data(f.insts, 1)) && IsTerminator(Data(f.insts, 2))
    ensures Terminated(f)
  {
    assert EndsOnce(f.insts, [0, 1]) && EndsOnce(f.insts, [2]);
    hide EndsOnce;
  }

  lemma NotTerminated(f: Func)
    requires f.layout != [] && f.layout[0].insts != [] && var s := f.layout[0].insts; !IsTerminator(Data(f.insts, s[|s| - 1]))
    ensures !Terminated(f)
  {
    assert Terminated(f) ==> EndsOnce(f.insts, f.layout[0].insts);
  }

  lemma TrapInside(f: Func)
    requires f.layout == Two
    ensures !Terminated(TrappedAt(f, 0))
  {
    var g := TrappedAt(f, 0);
    if Terminated(g) {
      assert EndsOnce(g.insts, Two[0].insts);
      assert IsTerminator(Data(g.insts, Two[0].insts[0]));
    }
  }

  lemma CallInTwo(f: Func)
    requires f.layout == Two && IsCall(Data(f.insts, 0))
    ensures ContainsCall(f)
  {
    WfTwo();
    hide Flatten;
    assert Flatten(f.layout)[0] == 0;
  }

  lemma NoCallLeft()
    ensures !ContainsCall(Caller.(layout := Less))
  {
    assert Less[1..] == [LBlock(1, [2])] && Less[1..][1..] == [];
    assert Flatten(Less[1..]) == [2] + Flatten([]);
    assert Flatten(Less) == [1] + [2];
    hide Flatten;
  }

  lemma {:induction false} CallerRefusals(crash: Func -> bool)
    requires ChecksCalls(crash, 2)
    ensures var g := TrappedAt(Caller, 1);
            && crash(Caller) && crash(g)
            && !crash(Caller.(layout := TwoWithout(0))) && !crash(Caller.(layout := TwoWithout(1)))
            && !crash(TrappedAt(Caller, 0)) && !crash(g.(layout := [LBlock(0, [0, 1])]))
  {
    TerminatedTwo(Caller);
    TerminatedTwo(TrappedAt(Caller, 1));
    CallInTwo(Caller);
    CallInTwo(TrappedAt(Caller, 1));
    NoCallLeft();
    NotTerminated(Caller.(layout := TwoWithout(1)));
    TrapInside(Caller);
    hide Terminated, ContainsCall;
  }

  /**
    For every such check of at least two blocks: the pass on this function sets a trap and drops a function, keeps
    no change of size, and is final.
   */
  lemma {:induction false} CallerIsFinal(crash: Func -> bool)
    requires ChecksCalls(crash, 2)
    ensures var g := CompactAll(TrappedAt(Caller, 1));
            && Inv(Caller) && crash(Caller)
            && RunPass(crash, Caller, 0) == PhaseEnd(g, false) && Data(g.insts, 1).opcode == Trap && |g.extFuncs| == 1
            && OneMinimal(crash, g) && AllRefused(crash, g, 0)
  {
    hide RunPhase, RunPass, Two, Preds, ChecksCalls, CompactAll, Blind, OneMinimal, AllRefused, Inv, Flatten, Refuses;
    var h := TrappedAt(Caller, 1);
    CallerInv();
    CallerRefusals(crash);
    ChecksAreBlind(crash, 2);
    ConstQuiet(crash, Caller);
    EntitiesPhase(crash, h);
    CompactedShape(h);
    CallerConsts(crash);
    CallerTables();
    NoPredLeft(CompactAll(h));
    FlatTwo();
    PassKeepsTrap(crash, Caller, h, CompactAll(h));
    BlindIsFinal(crash, Caller);
  }

  lemma FlatTwo()
    ensures |Flatten(Caller.layout)| == 3
  {
    WfTwo();
  }

  lemma CompactedShape(h: Func)
    requires Renamed(h, CompactAll(h))
    ensures var g := CompactAll(h); g.layout == h.layout && g.params == h.params
    ensures forall i :: SameShape(Data(h.insts, i), Data(CompactAll(h).insts, i))
  {
    hide CompactAll, Flatten, SameRef;
  }

  lemma CallerConsts(crash: Func -> bool)
    ensures PhaseRefuses(crash, Caller, 1)
  {
    hide Two, NextInstRetPrev, FirstInst, EntryBlock;
    Starts(Caller);
    Cursor();
    assert Refuses(crash, ReplaceInstWithConst(1, 2), Caller, MaxTries - 2);
    assert Refuses(crash, ReplaceInstWithConst(0, 1), Caller, MaxTries - 1);
  }

  lemma CallerTables()
    ensures |CompactAll(TrappedAt(Caller, 1)).extFuncs| == 1
  {
    var h := TrappedAt(Caller, 1);
    WfTwo();
    var used := UsedBy(h, {Call, FuncAddr});
    OnlyCallee(h);
    KeepSize(h.extFuncs, used);
    assert Rank(used, 0) == 0 && Rank(used, 1) == 0 && Rank(used, 2) == 1;
    hide Flatten, Keep, UsedBy, RenumberInsts, Renumber, SignaturesUsed, OnlySimpleGlobals;
  }

  lemma OnlyCallee(h: Func)
    requires h.layout == Two && Data(h.insts, 0) == CallSecond && Data(h.insts, 1) == TrapData && Data(h.insts, 2) == ReturnData
    ensures UsedBy(h, {Call, FuncAddr}) == {1}
  {
    WfTwo();
    hide Flatten;
    assert Flatten(h.layout)[0] == 0;
  }

  // ----- A change of callee that is kept -----

  lemma SwitchedCalls()
    ensures ContainsCall(Switched) && |Switched.layout| == 2
  {
    SwitchedFlatten();
    hide Flatten;
    assert Flatten(Switched.layout)[1] == 1 && IsCall(Data(Switched.insts, 1));
  }

  /** Such a check keeps the compaction that makes a `try_call` call another function. */
  lemma SwitchedIsKept(crash: Func -> bool, n: nat)
    requires ChecksCalls(crash, n) && n <= 2
    ensures crash(Switched) && crash(CompactExtFuncs(Switched))
  {
    hide Blind, Renamed, Alike, CompactExtFuncs, Switched;
    SwitchedCalls();
    TryCallChangesItsCallee();
    ChecksAreBlind(crash, n);
    CompactRenamed(0, Switched);
    RenamedAlike(Switched, CompactExtFuncs(Switched));
    CrashesAlike(crash, Switched, CompactExtFuncs(Switched));
  }

  // ----- A pass that releases an instruction -----

  const BranchData := InstData(Brif, OtherOp(4), [5], [BlockCall(1, []), BlockCall(1, [])], 0)

  /** `block0: v5 = iconst; brif v5, block1, block1` and `block1: return`. */
  const Chooser := Func(Two, map[0 := ConstData(Iconst, []), 1 := BranchData, 2 := ReturnData], map[0 := [5]], map[], map[], map[], [],
                        [], [], [], [], map[], 3, 6)

  ghost predicate Defined(f: Func, v: Value) {
    exists j :: j in Flatten(f.layout) && v in ResultsOf(f.results, j)
  }

  /** A verifier that looks at terminators, and for a definition of every value that is used. */
  ghost predicate Verifies(f: Func) {
    Terminated(f) && forall i, v :: i in Flatten(f.layout) && v in Data(f.insts, i).args ==> Defined(f, v)
  }

  ghost predicate ChecksBlocks(verifies: Func -> bool, fails: Func -> bool, crash: Func -> bool) {
    forall f :: (verifies(f) <==> Verifies(f)) && (fails(f) <==> |f.layout| >= 2) && (crash(f) <==> verifies(f) && fails(f))
  }

  lemma BlocksAreBlind(verifies: Func -> bool, fails: Func -> bool, crash: Func -> bool)
    requires ChecksBlocks(verifies, fails, crash)
    ensures TrapBlind(fails) && TableBlind(fails) && forall h :: verifies(h) ==> Terminated(h)
  {
    hide Flatten, Terminated, Renamed, Defined;
    forall f, g | Terminated(f) && Renamed(f, g) ensures fails(g) == fails(f) {
      RenamedLayout(f, g);
    }
  }

  lemma ChooserInv()
    ensures Inv(Chooser)
  {
    TwoInv(Chooser);
  }

  lemma FlatLess()
    ensures Flatten(Less) == [1, 2]
  {
    assert Less[1..] == [LBlock(1, [2])] && Less[1..][1..] == [];
    assert Flatten(Less[1..]) == [2] + Flatten([]);
    assert Flatten(Less) == [1] + [2];
  }

  /** Two blocks whose only use is of the first instruction's result, which is there. */
  lemma VerifiesTwo(f: Func)
    requires f.layout == Two && Data(f.insts, 0) == ConstData(Iconst, []) && f.results == map[0 := [5]]
    requires Data(f.insts, 1) in {BranchData, TrapData} && Data(f.insts, 2) == ReturnData
    ensures Verifies(f)
  {
    TerminatedTwo(f);
    WfTwo();
    FiveDefined(f);
    hide Terminated, Flatten, Defined, Two, WfLayout;
    forall i, v | i in Flatten(f.layout) && v in Data(f.insts, i).args ensures v == 5 {
      assert i in {0, 1, 2};
    }
  }

  lemma FiveDefined(f: Func)
    requires f.layout == Two && f.results == map[0 := [5]]
    ensures Defined(f, 5)
  {
    WfTwo();
    hide Flatten, WfLayout;
    var j: Inst := 0;
    assert Flatten(f.layout)[0] == j && 5 in ResultsOf(f.results, j);
  }

  lemma VerifiesLess(f: Func)
    requires f.layout == Less && Data(f.insts, 1) == TrapData && Data(f.insts, 2) == ReturnData
    ensures Verifies(f)
  {
    FlatLess();
    hide Flatten;
    assert EndsOnce(f.insts, [1]) && EndsOnce(f.insts, [2]);
    hide EndsOnce;
  }

  lemma NotDefined(f: Func)
    requires f.layout == Less && Data(f.insts, 1) == BranchData && f.results == map[0 := [5]]
    ensures !Verifies(f)
  {
    FlatLess();
    hide Flatten, Terminated;
    assert Flatten(f.layout)[0] == 1 && 5 in Data(f.insts, 1).args && !Defined(f, 5);
  }

  lemma {:induction false} ChooserRefusals(verifies: Func -> bool, fails: Func -> bool, crash: Func -> bool)
    requires ChecksBlocks(verifies, fails, crash)
    ensures var g := TrappedAt(Chooser, 1);
            && crash(Chooser) && crash(g)
            && !crash(Chooser.(layout := TwoWithout(0))) && !crash(Chooser.(layout := TwoWithout(1)))
            && !crash(TrappedAt(Chooser, 0)) && !crash(g.(layout := [LBlock(0, [0, 1])]))
            && !verifies(Chooser.(layout := Less)) && fails(Chooser.(layout := Less))
            && verifies(g.(layout := Less)) && crash(g.(layout := Less))
  {
    hide Flatten, Defined;
    var g := TrappedAt(Chooser, 1);
    VerifiesTwo(Chooser);
    VerifiesTwo(g);
    NotDefined(Chooser.(layout := Less));
    NotTerminated(Chooser.(layout := TwoWithout(1)));
    TrapInside(Chooser);
    VerifiesLess(g.(layout := Less));
  }

  lemma ChooserConsts(crash: Func -> bool)
    ensures RunPhase(crash, ReplaceInstWithConst(0, 0), Chooser, MaxTries) == PhaseEnd(Chooser, false)
    ensures PhaseRefuses(crash, Chooser, 1)
  {
    hide Two, NextInstRetPrev, FirstInst, EntryBlock;
    Starts(Chooser);
    Cursor();
    assert Refuses(crash, ReplaceInstWithConst(1, 2), Chooser, MaxTries - 2);
    assert Refuses(crash, ReplaceInstWithConst(0, 1), Chooser, MaxTries - 1);
    assert Refuses(crash, ReplaceInstWithConst(0, 0), Chooser, MaxTries);
    hide RunPhase, Mutate, Refuses;
    RefusesEnds(crash, ReplaceInstWithConst(0, 0), Chooser, MaxTries);
  }

  /**
    Where the verifier looks at uses and the compiler fails on two blocks: the pass replaces the branch by a trap,
    which releases the constant that only the branch used.  It keeps no change of size and so is the last one.
   */
  lemma {:induction false} ChooserIsReleased(verifies: Func -> bool, fails: Func -> bool, crash: Func -> bool)
    requires ChecksBlocks(verifies, fails, crash)
    ensures var g := TrappedAt(Chooser, 1);
            && Inv(Chooser) && TrapBlind(fails) && TableBlind(fails) && PhaseRefuses(crash, Chooser, 1)
            && RunPass(crash, Chooser, 0) == PhaseEnd(g, false)
            && Released(verifies, fails, Chooser, g, 0) && !OneMinimal(crash, g)
  {
    hide RunPhase, RunPass, Two, Preds, ChecksBlocks, OneMinimal, Inv, Flatten, Refuses, Verifies, PhaseRefuses, TrapBlind, TableBlind;
    var g := TrappedAt(Chooser, 1);
    ChooserInv();
    BlocksAreBlind(verifies, fails, crash);
    ChooserRefusals(verifies, fails, crash);
    ChooserConsts(crash);
    EntitiesKept(crash, g);
    NoPredLeft(g);
    StruckTwo(0);
    PassKeepsTrap(crash, Chooser, g, g);
    ChooserLost(crash, g);
  }

  lemma ChooserLost(crash: Func -> bool, g: Func)
    requires g.layout == Two && crash(g.(layout := Less))
    ensures !OneMinimal(crash, g)
  {
    WfTwo();
    StruckTwo(0);
    hide Flatten, StrikeLayout;
    assert crash(DeleteInst(g, Flatten(g.layout)[0]));
  }
}
