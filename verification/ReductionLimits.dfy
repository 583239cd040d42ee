/** Where a reduction stops short: what one phase leaves undone, and what the last pass does. */
module ReductionLimits {
  import opened Options
  import opened Layouts
  import opened Clif
  import opened Mutators
  import opened Invariants
  import opened Reduction
  import opened Minimality

  // ----- Steps of a phase -----

  lemma Discards(crash: Func -> bool, m: Mutator, f: Func, tries: nat)
    requires tries > 0 && Mutate(m, f).outcome.Mutated?
    requires Mutate(m, f).outcome.status == Skip || !crash(Mutate(m, f).outcome.func)
    ensures RunPhase(crash, m, f, tries) == RunPhase(crash, Mutate(m, f).next, f, tries - 1)
  {
    hide Mutate, DidCrash;
  }

  lemma Keeps(crash: Func -> bool, m: Mutator, f: Func, tries: nat)
    requires tries > 0 && Mutate(m, f).outcome.Mutated? && DidCrash(Mutate(m, f).next).Ok?
    requires Mutate(m, f).outcome.status == Changed && crash(Mutate(m, f).outcome.func)
    ensures RunPhase(crash, m, f, tries) == RunPhase(crash, DidCrash(Mutate(m, f).next).value, Mutate(m, f).outcome.func, tries - 1)
  {
    hide Mutate, DidCrash;
  }

  lemma Ends(crash: Func -> bool, m: Mutator, f: Func, tries: nat)
    requires tries > 0 && Mutate(m, f).outcome.Done?
    ensures RunPhase(crash, m, f, tries) == PhaseEnd(f, false)
  {
    hide Mutate, DidCrash;
  }

  // ----- Removing blocks -----

  lemma RemovedIsGone(l: Layout, b: Block)
    requires DistinctIds(l) && BlockIndex(l, b).Some?
    ensures NextBlock(Layouts.RemoveBlock(l, b), b) == None
  {
    hide DistinctIds;
    var k := BlockIndex(l, b).value;
    var m := Layouts.RemoveBlock(l, b);
    OthersDiffer(l, b, k);
    forall j | 0 <= j < |m| ensures m[j].id != b {
      assert m[j] == if j < k then l[j] else l[j + 1];
    }
  }

  lemma OthersDiffer(l: Layout, b: Block, k: nat)
    requires DistinctIds(l) && BlockIndex(l, b) == Some(k)
    ensures k < |l| && forall j :: 0 <= j < |l| && j != k ==> l[j].id != b
  {
  }

  function WithoutBlock(f: Func, i: nat): Func
    requires i < |f.layout|
  {
    f.(layout := Layouts.RemoveBlock(f.layout, f.layout[i].id))
  }

  /** `j` is the first block after the one at `c`, within so many tries, whose removal crashes. */
  ghost predicate FirstToGo(crash: Func -> bool, f: Func, c: nat, tries: nat, j: nat) {
    && c < j <= c + tries && j < |f.layout| && crash(WithoutBlock(f, j))
    && forall i :: c < i < j ==> !crash(WithoutBlock(f, i))
  }

  ghost predicate NoneToGo(crash: Func -> bool, f: Func, c: nat, tries: nat) {
    forall i :: c < i <= c + tries && i < |f.layout| ==> !crash(WithoutBlock(f, i))
  }

  /**
    A phase removes the first block after its cursor whose removal crashes, and no other: the cursor stays on
    that block, which is gone and has no next one.  It removes none exactly if there is none within its tries.
   */
  lemma {:induction false} RemovesFirstBlock(crash: Func -> bool, c: nat, f: Func, tries: nat) returns (removed: Option<nat>)
    requires Inv(f) && c < |f.layout|
    ensures removed.None? ==>
              NoneToGo(crash, f, c, tries) && RunPhase(crash, RemoveBlock(f.layout[c].id), f, tries) == PhaseEnd(f, false)
    ensures removed.Some? ==>
              && FirstToGo(crash, f, c, tries, removed.value)
              && RunPhase(crash, RemoveBlock(f.layout[c].id), f, tries) == PhaseEnd(WithoutBlock(f, removed.value), true)
    decreases tries
  {
    hide Inv, RunPhase, WithoutBlock;
    removed := None;
    BlockStep(crash, c, f, tries);
    if tries > 0 && c + 1 < |f.layout| {
      if crash(WithoutBlock(f, c + 1)) {
        removed := Some(c + 1);
      } else {
        removed := RemovesFirstBlock(crash, c + 1, f, tries - 1);
      }
    }
  }

  lemma {:induction false} BlockStep(crash: Func -> bool, c: nat, f: Func, tries: nat)
    requires Inv(f) && c < |f.layout|
    ensures var r := RunPhase(crash, RemoveBlock(f.layout[c].id), f, tries);
            if tries == 0 || c + 1 == |f.layout| then r == PhaseEnd(f, false)
            else if crash(WithoutBlock(f, c + 1)) then r == PhaseEnd(WithoutBlock(f, c + 1), true)
            else r == RunPhase(crash, RemoveBlock(f.layout[c + 1].id), f, tries - 1)
  {
    hide Inv, Layouts.RemoveBlock, BlockIndex;
    InvLayout(f);
    BlockIndexAt(f.layout, c);
    if tries > 0 && c + 1 < |f.layout| {
      var b, g := f.layout[c + 1].id, WithoutBlock(f, c + 1);
      BlockIndexAt(f.layout, c + 1);
      assert Mutate(RemoveBlock(f.layout[c].id), f) == Step(RemoveBlock(b), Mutated(g, ExpandedOrShrinked));
      hide NextBlock;
      RemovedIsGone(f.layout, b);
      NoNext(crash, b, g, tries - 1);
    }
  }

  lemma NoNext(crash: Func -> bool, b: Block, f: Func, tries: nat)
    requires NextBlock(f.layout, b) == None
    ensures RunPhase(crash, RemoveBlock(b), f, tries) == PhaseEnd(f, false)
  {
  }

  /** Three blocks that each only return. */
  const Returns := Func([LBlock(0, [0]), LBlock(1, [1]), LBlock(2, [2])],
                        map[0 := ReturnData, 1 := ReturnData, 2 := ReturnData],
                        map[], map[], map[], map[], [], [], [], [], [], map[], 3, 0)

  const ReturnData := InstData(PlainFormat, Return, [], [], 0)

  lemma ReturnsLayout()
    ensures WfLayout(Returns.layout) && Flatten(Returns.layout) == [0, 1, 2]
  {
    var l := Returns.layout;
    assert l[1..] == [LBlock(1, [1]), LBlock(2, [2])] && l[1..][1..] == [LBlock(2, [2])] && l[1..][1..][1..] == [];
    assert Flatten([LBlock(2, [2])]) == [2] + Flatten([]);
    assert Flatten(l[1..]) == [1] + ([2] + []);
    assert Flatten(l) == [0] + ([1] + ([2] + []));
    hide Flatten;
    var all: seq<Inst> := [0, 1, 2];
    assert [0] + ([1] + ([2] + [])) == all;
    OnceThree(all);
  }

  lemma OnceThree(s: seq<Inst>)
    requires s == [0, 1, 2]
    ensures Once(s)
  {
    assert multiset(s) == multiset{0, 1, 2};
  }

  lemma ReturnsInv()
    ensures Inv(Returns)
  {
    ReturnsLayout();
    hide WfLayout, Flatten;
    NoParams(Returns.layout);
    assert AllParams(Returns) == [];
    assert BranchesLast(Returns.insts, [0]) && BranchesLast(Returns.insts, [1]) && BranchesLast(Returns.insts, [2]);
  }

  lemma {:induction false} NoParams(l: Layout)
    ensures ParamsIn(map[], l) == []
  {
    if l != [] {
      NoParams(l[1..]);
    }
  }

  /** Both of the later blocks could go; a phase removes the first and leaves the second. */
  lemma LeavesRemovableBlock(crash: Func -> bool)
    requires crash(WithoutBlock(Returns, 1)) && crash(WithoutBlock(Returns, 2))
    requires crash(Returns.(layout := [LBlock(0, [0])]))
    ensures Terminated(Returns) && Terminated(WithoutBlock(Returns, 1)) && Terminated(WithoutBlock(Returns, 2))
    ensures RunPhase(crash, RemoveBlock(0), Returns, MaxTries) == PhaseEnd(WithoutBlock(Returns, 1), true)
    ensures WithoutBlock(Returns, 1).layout == [LBlock(0, [0]), LBlock(2, [2])]
  {
    ReturnsShapes();
    hide Returns, RunPhase, WithoutBlock, Inv, Terminated;
    ReturnsInv();
    var removed := RemovesFirstBlock(crash, 0, Returns, MaxTries);
  }

  lemma ReturnsShapes()
    ensures |Returns.layout| == 3 && Returns.layout[0].id == 0
    ensures WithoutBlock(Returns, 1).layout == [LBlock(0, [0]), LBlock(2, [2])]
    ensures Terminated(Returns) && Terminated(WithoutBlock(Returns, 1)) && Terminated(WithoutBlock(Returns, 2))
  {
    var l := Returns.layout;
    hide BlockIndex;
    assert DistinctIds(l);
    BlockIndexAt(l, 1);
    BlockIndexAt(l, 2);
    assert l[..1] + l[2..] == [LBlock(0, [0]), LBlock(2, [2])];
    assert l[..2] + l[3..] == [LBlock(0, [0]), LBlock(1, [1])];
  }

  // ----- The last pass may leave something to remove -----

  const Two: Layout := [LBlock(0, [0, 1]), LBlock(1, [2])]
  const Less: Layout := [LBlock(0, [1]), LBlock(1, [2])]
  const JumpData := InstData(Jump, OtherOp(2), [], [BlockCall(1, [])], 0)

  /** `block0: nop; jump block1` and `block1: return`. */
  const Plain := Func(Two, map[1 := JumpData, 2 := ReturnData], map[], map[], map[], map[], [], [], [], [], [], map[], 3, 0)

  /** The same with a trap for the jump, and that without its first instruction. */
  const Trapped := Plain.(insts := map[1 := TrapData, 2 := ReturnData])
  const Minimal := Trapped.(layout := Less)

  /** An oracle for which the first instruction matters until the jump is a trap. */
  function Picky(f: Func): bool {
    f == Plain || f == Trapped || f == Minimal
  }

  /** Another one, for which it matters even then. */
  function Modest(f: Func): bool {
    f == Plain || f == Trapped
  }

  /** What both accept ends every block in its only terminator. */
  lemma AcceptTerminated(f: Func)
    ensures Picky(f) || Modest(f) ==> Terminated(f)
  {
    assert EndsOnce(Plain.insts, [0, 1]) && EndsOnce(Plain.insts, [2]);
    assert EndsOnce(Trapped.insts, [0, 1]) && EndsOnce(Trapped.insts, [2]) && EndsOnce(Trapped.insts, [1]);
    hide EndsOnce;
  }

  /** What the last pass tries and both refuse. */
  ghost predicate RefusesRest(crash: Func -> bool) {
    && crash(Plain) && crash(Trapped)
    && !crash(Plain.(layout := TwoWithout(0))) && !crash(Plain.(layout := TwoWithout(1)))
    && !crash(Plain.(insts := Plain.insts[0 := TrapData])) && !crash(Trapped.(layout := [LBlock(0, [0, 1])]))
  }

  lemma BothRefuse()
    ensures RefusesRest(Picky) && RefusesRest(Modest)
  {
    assert Plain.insts[1] != Trapped.insts[1];
    assert |Two[0].insts| == 2 && |Less[0].insts| == 1 && |TwoWithout(1)[0].insts| == 1;
    assert 0 !in Plain.insts && 0 !in Trapped.insts && 0 in Plain.insts[0 := TrapData];
  }

  lemma WfTwo()
    ensures WfLayout(Two) && Flatten(Two) == [0, 1, 2]
  {
    assert Two[1..] == [LBlock(1, [2])] && Two[1..][1..] == [];
    assert Flatten(Two[1..]) == [2] + Flatten([]);
    var all: seq<Inst> := [0, 1, 2];
    assert Flatten(Two) == [0, 1] + ([2] + []) == all;
    assert multiset(all) == multiset{0, 1, 2};
    hide Flatten;
  }

  lemma Cursor()
    ensures NextInstRetPrev(Two, 0, 0) == Advanced(0, 1)
    ensures NextInstRetPrev(Two, 0, 1) == Advanced(1, 2)
    ensures NextInstRetPrev(Two, 1, 2) == End
  {
    WfTwo();
    hide WfLayout, NextInstRetPrev, Flatten;
    NextInstRetPrevAt(Two, 0, 0);
    NextInstRetPrevAt(Two, 0, 1);
    NextInstRetPrevAt(Two, 1, 0);
  }

  lemma Blocks()
    ensures EntryBlock(Two) == Some(0) && FirstInst(Two, 0) == Some(0)
    ensures NextBlock(Two, 0) == Some(1) && NextBlock(Two, 1) == None
    ensures BlockIndex(Two, 0) == Some(0) && BlockIndex(Two, 1) == Some(1)
  {
    hide BlockIndex;
    assert DistinctIds(Two);
    BlockIndexAt(Two, 0);
    BlockIndexAt(Two, 1);
  }

  // ----- Deleting -----

  function TwoWithout(i: Inst): Layout {
    if i == 0 then Less else [LBlock(0, [0]), LBlock(1, [2])]
  }

  lemma WithoutOne(s: seq<Inst>)
    requires s == [0, 1]
    ensures Without(s, 0) == [1] && Without(s, 1) == [0]
  {
  }

  lemma RemovedFromTwo(i: Inst)
    requires i < 2
    ensures Layouts.RemoveInst(Two, i) == TwoWithout(i)
  {
    WfTwo();
    hide WfLayout, Locate, Without, Flatten;
    LocateAt(Two, 0, i);
    assert Two[0].insts[i] == i && Locate(Two, i) == Some((0, i));
    WithoutOne(Two[0].insts);
    var left := Without(Two[0].insts, i);
    assert WithInsts(Two, 0, left) == [LBlock(0, left), LBlock(1, [2])] == TwoWithout(i);
  }

  lemma RemoveInstIs(f: Func, b: Block, i: Inst, b': Block, i': Inst)
    requires NextInstRetPrev(f.layout, b, i) == Advanced(b', i') && InstsOf(Layouts.RemoveInst(f.layout, i), b) != []
    ensures MutateRemoveInst(b, i, f) ==
            Step(RemoveInst(b', i'), Mutated(f.(layout := Layouts.RemoveInst(f.layout, i)), ExpandedOrShrinked))
  {
    hide NextInstRetPrev, Layouts.RemoveInst, InstsOf;
  }

  lemma LeftInTwo(i: Inst)
    ensures InstsOf(TwoWithout(i), 0) != []
  {
    assert TwoWithout(i)[0].id == 0;
  }

  lemma RemoveInstQuiet(crash: Func -> bool, f: Func)
    requires f.layout == Two && !crash(f.(layout := TwoWithout(0))) && !crash(f.(layout := TwoWithout(1)))
    ensures RunPhase(crash, RemoveInst(0, 0), f, MaxTries) == PhaseEnd(f, false)
  {
    hide Two, TwoWithout, NextInstRetPrev, RunPhase, InstsOf, Layouts.RemoveInst;
    Cursor();
    RemovedFromTwo(0);
    RemovedFromTwo(1);
    LeftInTwo(0);
    LeftInTwo(1);
    assert MutateRemoveInst(1, 2, f).outcome == Done;
    hide MutateRemoveInst;
    RemoveInstIs(f, 0, 0, 0, 1);
    RemoveInstIs(f, 0, 1, 1, 2);
    Discards(crash, RemoveInst(0, 0), f, MaxTries);
    Discards(crash, RemoveInst(0, 1), f, MaxTries - 1);
    Ends(crash, RemoveInst(1, 2), f, MaxTries - 2);
  }

  // ----- The other phases -----

  lemma ConstQuiet(crash: Func -> bool, f: Func)
    requires f.layout == Two && f.results == map[]
    ensures RunPhase(crash, ReplaceInstWithConst(0, 0), f, MaxTries) == PhaseEnd(f, false)
  {
    hide Two, NextInstRetPrev, RunPhase;
    Cursor();
    Discards(crash, ReplaceInstWithConst(0, 0), f, MaxTries);
    Discards(crash, ReplaceInstWithConst(0, 1), f, MaxTries - 1);
    Ends(crash, ReplaceInstWithConst(1, 2), f, MaxTries - 2);
  }

  lemma TrapKept(crash: Func -> bool, f: Func, g: Func)
    requires f.layout == Two && Data(f.insts, 0).opcode != Trap && Data(f.insts, 1).opcode != Trap
    requires !crash(f.(insts := f.insts[0 := TrapData])) && g == f.(insts := f.insts[1 := TrapData]) && crash(g)
    ensures RunPhase(crash, ReplaceInstWithTrap(0, 0), f, MaxTries) == PhaseEnd(g, false)
  {
    hide Two, NextInstRetPrev, RunPhase;
    Cursor();
    TrapIs(f, 0, 0, 0, 1);
    TrapIs(f, 0, 1, 1, 2);
    assert MutateReplaceInstWithTrap(1, 2, g).outcome == Done;
    hide MutateReplaceInstWithTrap;
    Discards(crash, ReplaceInstWithTrap(0, 0), f, MaxTries);
    Keeps(crash, ReplaceInstWithTrap(0, 1), f, MaxTries - 1);
    Ends(crash, ReplaceInstWithTrap(1, 2), g, MaxTries - 2);
  }

  lemma TrapIs(f: Func, b: Block, i: Inst, b': Block, i': Inst)
    requires NextInstRetPrev(f.layout, b, i) == Advanced(b', i') && Data(f.insts, i).opcode != Trap
    ensures MutateReplaceInstWithTrap(b, i, f) == Step(ReplaceInstWithTrap(b', i'), Mutated(f.(insts := f.insts[i := TrapData]), Changed))
  {
    hide NextInstRetPrev;
  }

  lemma MoveQuiet(crash: Func -> bool, f: Func)
    requires f.layout == Two
    ensures RunPhase(crash, MoveInstToEntryBlock(0, 0), f, MaxTries) == PhaseEnd(f, false)
  {
    hide Two, NextInstRetPrev, RunPhase, EntryBlock;
    Cursor();
    Blocks();
    Discards(crash, MoveInstToEntryBlock(0, 0), f, MaxTries);
    Discards(crash, MoveInstToEntryBlock(0, 1), f, MaxTries - 1);
    Ends(crash, MoveInstToEntryBlock(1, 2), f, MaxTries - 2);
  }

  lemma RemovedSecond()
    ensures Layouts.RemoveBlock(Two, 1) == [LBlock(0, [0, 1])]
  {
    Blocks();
    hide BlockIndex;
    assert Two[..1] + Two[2..] == [LBlock(0, [0, 1])];
  }

  lemma BlockQuiet(crash: Func -> bool, f: Func)
    requires f.layout == Two && !crash(f.(layout := [LBlock(0, [0, 1])]))
    ensures RunPhase(crash, RemoveBlock(0), f, MaxTries) == PhaseEnd(f, false)
  {
    hide Two, RunPhase, NextBlock, Layouts.RemoveBlock;
    Blocks();
    RemovedSecond();
    Discards(crash, RemoveBlock(0), f, MaxTries);
    Ends(crash, RemoveBlock(1), f, MaxTries - 1);
  }

  lemma ParamQuiet(crash: Func -> bool, f: Func)
    requires f.layout == Two && f.params == map[]
    ensures RunPhase(crash, ReplaceBlockParamWithConst(0, 0), f, MaxTries) == PhaseEnd(f, false)
  {
    hide Two, RunPhase, NextBlock, BlockIndex;
    Blocks();
    assert SeekParam(f, 1, 0) == None;
    assert SeekParam(f, 0, 0) == None;
    hide SeekParam;
    Ends(crash, ReplaceBlockParamWithConst(0, 0), f, MaxTries);
  }

  lemma NoneRenumbered(f: Func, formats: set<Format>, used: set<nat>)
    ensures RenumberInsts(f, formats, used, 0) == f.insts
  {
    hide Flatten;
  }

  lemma NothingToCompact(f: Func)
    requires f.extFuncs == [] && f.signatures == [] && f.stackSlots == [] && f.globals == []
    ensures CompactExtFuncs(f) == f && CompactSignatures(f) == f && CompactStackSlots(f) == f && CompactGlobals(f) == f
    ensures OnlySimpleGlobals(f)
  {
    hide Flatten, RenumberInsts, UsedBy, SignaturesUsed;
    NoneRenumbered(f, {Call, FuncAddr}, UsedBy(f, {Call, FuncAddr}));
    NoneRenumbered(f, {CallIndirect}, SignaturesUsed(f));
    NoneRenumbered(f, {StackLoad, StackStore}, UsedBy(f, {StackLoad, StackStore}));
    NoneRenumbered(f, {UnaryGlobalValue}, UsedBy(f, {UnaryGlobalValue}));
  }

  lemma EntitiesKept(crash: Func -> bool, f: Func)
    requires crash(f) && f.extFuncs == [] && f.signatures == [] && f.stackSlots == [] && f.globals == []
    ensures RunPhase(crash, RemoveUnusedEntities(0), f, MaxTries) == PhaseEnd(f, false)
  {
    NothingToCompact(f);
    hide RunPhase, CompactExtFuncs, CompactSignatures, CompactStackSlots, CompactGlobals, OnlySimpleGlobals;
    Keeps(crash, RemoveUnusedEntities(0), f, MaxTries);
    Keeps(crash, RemoveUnusedEntities(1), f, MaxTries - 1);
    Keeps(crash, RemoveUnusedEntities(2), f, MaxTries - 2);
    Keeps(crash, RemoveUnusedEntities(3), f, MaxTries - 3);
    Ends(crash, RemoveUnusedEntities(4), f, MaxTries - 4);
  }

  lemma NoPredLeft(f: Func)
    requires f.layout == Two && Data(f.insts, 1).dests == [] && Data(f.insts, 2).dests == []
    ensures Preds(f, 1) == []
  {
    assert Two[1..] == [LBlock(1, [2])] && Two[1..][1..] == [];
    assert !Targets(Data(f.insts, 1), 1) && !Targets(Data(f.insts, 2), 1);
    assert PredsIn(f.insts, Two[1..], 1) == [] + [];
    assert Preds(f, 1) == [] + ([] + []);
  }

  lemma MergeQuiet(crash: Func -> bool, f: Func)
    requires f.layout == Two && Preds(f, 1) == []
    ensures RunPhase(crash, MergeBlocks(0, None), f, MaxTries) == PhaseEnd(f, false)
  {
    hide Two, RunPhase, NextBlock, Preds;
    Blocks();
    Discards(crash, MergeBlocks(0, None), f, MaxTries);
    Ends(crash, MergeBlocks(1, None), f, MaxTries - 1);
  }

  // ----- The whole pass -----

  /** A phase without a change of size, and then the rest of the pass. */
  lemma PhaseThenRest(crash: Func -> bool, f: Func, phase: nat, m: Mutator, g: Func)
    requires phase < 8 && NewMutator(phase, f) == Ok(m) && RunPhase(crash, m, f, MaxTries) == PhaseEnd(g, false)
    ensures RunPass(crash, f, phase) == RunPass(crash, g, phase + 1)
  {
    hide RunPhase, NewMutator;
  }

  lemma Starts(f: Func)
    requires f.layout == Two && f.params == map[]
    ensures NewMutator(0, f) == Ok(RemoveInst(0, 0)) && NewMutator(1, f) == Ok(ReplaceInstWithConst(0, 0))
    ensures NewMutator(2, f) == Ok(ReplaceInstWithTrap(0, 0)) && NewMutator(3, f) == Ok(MoveInstToEntryBlock(0, 0))
  {
    Blocks();
    hide FirstInst, EntryBlock, Two;
  }

  lemma LaterStarts(f: Func)
    requires f.layout == Two && f.params == map[]
    ensures NewMutator(4, f) == Ok(RemoveBlock(0)) && NewMutator(5, f) == Ok(ReplaceBlockParamWithConst(0, 0))
    ensures NewMutator(6, f) == Ok(RemoveUnusedEntities(0)) && NewMutator(7, f) == Ok(MergeBlocks(0, None))
  {
    Blocks();
    hide FirstInst, EntryBlock, Two;
  }

  lemma SameStarts()
    ensures Plain.layout == Two && Plain.params == map[] && Plain.results == map[]
    ensures Trapped.layout == Two && Trapped.params == map[]
    ensures Trapped == Plain.(insts := Plain.insts[1 := TrapData])
    ensures Data(Plain.insts, 0).opcode != Trap && Data(Plain.insts, 1).opcode != Trap
  {
    assert Plain.insts[1 := TrapData] == Trapped.insts;
  }

  /** Two blocks like these, of which `f` keeps a trap for its branch and then compacted tables. */
  ghost predicate KeepsTrap(crash: Func -> bool, f: Func, g: Func, h: Func) {
    && f.layout == Two && f.params == map[] && h.layout == Two && h.params == map[]
    && !crash(f.(layout := TwoWithout(0))) && !crash(f.(layout := TwoWithout(1)))
    && RunPhase(crash, ReplaceInstWithConst(0, 0), f, MaxTries) == PhaseEnd(f, false)
    && Data(f.insts, 0).opcode != Trap && Data(f.insts, 1).opcode != Trap
    && !crash(f.(insts := f.insts[0 := TrapData])) && g == f.(insts := f.insts[1 := TrapData]) && crash(g)
    && !crash(g.(layout := [LBlock(0, [0, 1])]))
    && RunPhase(crash, RemoveUnusedEntities(0), g, MaxTries) == PhaseEnd(h, false)
    && Preds(h, 1) == []
  }

  lemma PassKeepsTrap(crash: Func -> bool, f: Func, g: Func, h: Func)
    requires KeepsTrap(crash, f, g, h)
    ensures RunPass(crash, f, 0) == PhaseEnd(h, false)
  {
    hide RunPhase, NewMutator, Two, Preds;
    assert RunPass(crash, h, 8) == PhaseEnd(h, false);
    hide RunPass;
    Starts(f);
    Starts(g);
    LaterStarts(g);
    LaterStarts(h);
    RemoveInstQuiet(crash, f);
    PhaseThenRest(crash, f, 0, RemoveInst(0, 0), f);
    PhaseThenRest(crash, f, 1, ReplaceInstWithConst(0, 0), f);
    TrapKept(crash, f, g);
    PhaseThenRest(crash, f, 2, ReplaceInstWithTrap(0, 0), g);
    MoveQuiet(crash, g);
    PhaseThenRest(crash, g, 3, MoveInstToEntryBlock(0, 0), g);
    BlockQuiet(crash, g);
    PhaseThenRest(crash, g, 4, RemoveBlock(0), g);
    ParamQuiet(crash, g);
    PhaseThenRest(crash, g, 5, ReplaceBlockParamWithConst(0, 0), g);
    PhaseThenRest(crash, g, 6, RemoveUnusedEntities(0), h);
    MergeQuiet(crash, h);
    PhaseThenRest(crash, h, 7, MergeBlocks(0, None), h);
  }

  lemma PlainKeepsTrap(crash: Func -> bool)
    requires RefusesRest(crash)
    ensures RunPass(crash, Plain, 0) == PhaseEnd(Trapped, false)
  {
    hide RunPhase, RunPass, Two, Preds;
    SameStarts();
    ConstQuiet(crash, Plain);
    EntitiesKept(crash, Trapped);
    NoPredLeft(Trapped);
    hide Plain, Trapped;
    PassKeepsTrap(crash, Plain, Trapped, Trapped);
  }

  lemma NothingToResolve()
    ensures ResolveAllAliases(Plain) == Plain && ResolveAllAliases(Trapped) == Trapped
    ensures AliasFree(Plain.aliases) && AliasFree(Trapped.aliases)
    ensures Plain.(srclocs := map[]) == Plain
  {
    assert RootData(map[], TrapData) == TrapData && RootData(map[], ReturnData) == ReturnData;
    assert RootDests(map[], JumpData.dests)[0].args == [];
    assert RootDests(map[], JumpData.dests) == JumpData.dests;
    assert RootData(map[], JumpData) == JumpData;
    hide RootData;
  }

  lemma ReduceSettles(crash: Func -> bool)
    requires RefusesRest(crash)
    ensures Reduce(crash, Plain) == Result(Trapped, Plain, true)
  {
    assert crash(Plain) && crash(Trapped);
    PlainKeepsTrap(crash);
    NothingToResolve();
    hide Plain, Trapped, RunPass, ResolveAllAliases, RefusesRest, AliasFree;
    assert RunPasses(crash, Plain, MaxPasses) == Passes(Trapped, Plain, true);
    assert TryRemoveSrclocs(crash, Plain) == Plain;
  }

  // ----- What can be deleted then -----

  lemma StruckTwo(i: Inst)
    requires i < 2
    ensures StrikeLayout(Two, i) == TwoWithout(i)
  {
    WfTwo();
    hide WfLayout, StrikeLayout, Flatten, Without;
    DeletedIsStruck(Two, 0, i);
    WithoutOne(Two[0].insts);
    assert Two[0].insts[i] == i;
    assert WithInsts(Two, 0, Without(Two[0].insts, i)) == TwoWithout(i);
  }

  lemma TrappedDeletions()
    ensures Flatten(Trapped.layout) == [0, 1, 2]
    ensures DeleteInst(Trapped, 0) == Minimal && DeleteInst(Trapped, 1) == Trapped.(layout := TwoWithout(1))
  {
    WfTwo();
    StruckTwo(0);
    StruckTwo(1);
    hide Flatten, WfLayout, StrikeLayout;
  }

  /**
    A reduction can settle, because its last pass changed nothing in size, on a function that still crashes
    without its first instruction: the pass put a trap in after it had tried to remove that one.  All functions
    that this oracle accepts end every block in its only terminator.
   */
  lemma SettledIsNotMinimal()
    ensures Reduce(Picky, Plain) == Result(Trapped, Plain, true)
    ensures !OneMinimal(Picky, Trapped) && Picky(DeleteInst(Trapped, 0))
    ensures forall f :: Picky(f) ==> Terminated(f)
  {
    BothRefuse();
    ReduceSettles(Picky);
    TrappedDeletions();
    forall f ensures Picky(f) ==> Terminated(f) {
      AcceptTerminated(f);
    }
    assert Picky(Minimal);
    hide Reduce, DeleteInst, Flatten, Terminated, RefusesRest, Picky, Plain, Trapped, Minimal;
    assert Flatten(Trapped.layout)[0] == 0;
  }

  /**
    What makes a settled function minimal need not hold for it to be so: here the pass kept a trap, and the oracle
    can tell a function from the same one with an instruction trapped, and still nothing can be deleted.
   */
  lemma MinimalThoughChanged()
    ensures Reduce(Modest, Plain) == Result(Trapped, Plain, true) && Plain != Trapped
    ensures Modest(Plain) && !Modest(Plain.(insts := Plain.insts[0 := TrapData]))
    ensures OneMinimal(Modest, Trapped)
    ensures forall f :: Modest(f) ==> Terminated(f)
  {
    hide Reduce, OneMinimal, Terminated, Modest, Plain, Trapped;
    BothRefuse();
    ReduceSettles(Modest);
    forall f ensures Modest(f) ==> Terminated(f) {
      AcceptTerminated(f);
    }
    ModestMinimal();
    TrapDiffers();
  }

  lemma TrapDiffers()
    ensures Plain != Trapped
  {
    assert Plain.insts[1] != Trapped.insts[1];
  }

  lemma ModestMinimal()
    ensures OneMinimal(Modest, Trapped)
  {
    hide DeleteInst, Flatten, Modest, Trapped, Minimal;
    TrappedDeletions();
    NeitherIsModest();
    forall j | 0 <= j < 2 ensures !Modest(DeleteInst(Trapped, Flatten(Trapped.layout)[j])) {
      assert Flatten(Trapped.layout)[j] == j;
    }
  }

  lemma NeitherIsModest()
    ensures !Modest(Minimal) && !Modest(Trapped.(layout := TwoWithout(1)))
  {
    assert |Two[0].insts| == 2 && |TwoWithout(1)[0].insts| == 1 && |Less[0].insts| == 1;
  }
}
