/**
  What a reduction guarantees, whatever the oracle answers: it ends on a function that still crashes, and
  every function on the way keeps the invariant.
 */
module ReductionTheorems {
  import opened Layouts
  import opened Clif
  import opened Mutators
  import opened MutatorsKeep
  import opened BlockMutatorsKeep
  import opened Reduction

  // ----- Every function kept crashes -----

  lemma {:induction false} PhaseCrashes(crash: Func -> bool, m: Mutator, f: Func, tries: nat)
    requires crash(f)
    ensures var r := RunPhase(crash, m, f, tries); r.PhaseEnd? ==> crash(r.func)
    decreases tries
  {
    hide Mutate, DidCrash;
    if tries > 0 {
      var s := Mutate(m, f);
      if s.outcome.Mutated? {
        if s.outcome.status == Skip || !crash(s.outcome.func) {
          PhaseCrashes(crash, s.next, f, tries - 1);
        } else if DidCrash(s.next).Ok? {
          PhaseCrashes(crash, DidCrash(s.next).value, s.outcome.func, tries - 1);
        }
      }
    }
  }

  lemma {:induction false} PassCrashes(crash: Func -> bool, f: Func, phase: nat)
    requires crash(f) && phase <= 8
    ensures var r := RunPass(crash, f, phase); r.PhaseEnd? ==> crash(r.func)
    decreases 8 - phase
  {
    hide RunPhase, NewMutator;
    if phase < 8 && NewMutator(phase, f).Ok? {
      var m := NewMutator(phase, f).value;
      PhaseCrashes(crash, m, f, MaxTries);
      var r := RunPhase(crash, m, f, MaxTries);
      if r.PhaseEnd? {
        PassCrashes(crash, r.func, phase + 1);
      }
    }
  }

  lemma {:induction false} PassesCrash(crash: Func -> bool, f: Func, passes: nat)
    requires crash(f)
    ensures var r := RunPasses(crash, f, passes); r.Passes? ==> crash(r.func) && crash(r.start)
    decreases passes
  {
    hide RunPass;
    if passes > 0 {
      PassCrashes(crash, f, 0);
      var r := RunPass(crash, f, 0);
      if r.PhaseEnd? && r.shrank && passes > 1 {
        PassesCrash(crash, r.func, passes - 1);
      }
    }
  }

  /** The returned function crashes, and the arm marked unreachable is. */
  lemma ReduceStillCrashes(crash: Func -> bool, f: Func)
    ensures var r := Reduce(crash, f);
            && (r.NotCrashing? <==> !crash(f))
            && !r.StoppedCrashing?
            && (r.Result? ==> crash(r.func) && crash(r.start))
  {
    hide RunPasses;
    if crash(f) {
      var f1 := TryResolveAliases(crash, f);
      if f1.Ok? {
        PassesCrash(crash, TryRemoveSrclocs(crash, f1.value), MaxPasses);
      }
    }
  }

  // ----- Every function reached keeps the invariant -----

  /** One step of any mutator. */
  lemma {:induction false} MutateKeeps(m: Mutator, f: Func)
    requires Inv(f) && CursorOk(m, f)
    ensures GoodStep(Mutate(m, f), f)
  {
    hide Inv, GoodStep, MutateRemoveInst, MutateReplaceInstWithConst, MutateReplaceInstWithTrap, MutateMoveInst;
    hide MutateRemoveBlock, MutateReplaceParam, MutateEntities, MutateMergeBlocks;
    match m
    case RemoveInst(b, i) => KeepsRemoveInst(b, i, f);
    case ReplaceInstWithConst(b, i) => KeepsReplaceInstWithConst(b, i, f);
    case ReplaceInstWithTrap(b, i) => KeepsReplaceInstWithTrap(b, i, f);
    case MoveInstToEntryBlock(b, i) => KeepsMoveInst(b, i, f);
    case RemoveBlock(b) => KeepsRemoveBlock(b, f);
    case ReplaceBlockParamWithConst(b, r) => KeepsReplaceParam(b, r, f);
    case RemoveUnusedEntities(k) => KeepsEntities(k, f);
    case MergeBlocks(b, p) => KeepsMergeBlocks(b, p, f);
  }

  /** What every mutator and every other step of a reduction keeps. */
  ghost predicate Carried(keep: Func -> bool) {
    && (forall m, f :: Inv(f) && CursorOk(m, f) && keep(f) && Mutate(m, f).outcome.Mutated? ==> keep(Mutate(m, f).outcome.func))
    && (forall f {:trigger KeptWhole(keep, f)} :: Inv(f) && keep(f) ==> KeptWhole(keep, f))
  }

  ghost predicate KeptWhole(keep: Func -> bool, f: Func) {
    keep(ResolveAllAliases(f)) && keep(f.(srclocs := map[]))
  }

  function Anything(f: Func): bool {
    true
  }

  lemma AnythingCarried()
    ensures Carried(Anything)
  {
    hide Mutate, ResolveAllAliases;
  }

  /** A function that crashes, where some mutator does fail like this, and the reason. */
  ghost predicate FailsAt(e: Fault, crash: Func -> bool, keep: Func -> bool, f: Func) {
    Inv(f) && keep(f) && crash(f) && Excusable(e, f) && exists m :: FaultsOn(m, f, e)
  }

  ghost predicate FaultsOn(m: Mutator, f: Func, e: Fault) {
    CursorOk(m, f) && Mutate(m, f).outcome == Faulted(e)
  }

  lemma {:induction false} PhaseKeeps(crash: Func -> bool, keep: Func -> bool, m: Mutator, f: Func, tries: nat)
    requires Inv(f) && CursorOk(m, f) && crash(f) && keep(f) && Carried(keep)
    ensures var r := RunPhase(crash, m, f, tries);
            if r.PhaseEnd? then Inv(r.func) && keep(r.func) else FailsAt(r.fault, crash, keep, r.at)
    decreases tries
  {
    hide Mutate, Inv, CursorOk, DidCrash, Excusable;
    if tries > 0 {
      MutateKeeps(m, f);
      var s := Mutate(m, f);
      if s.outcome.Mutated? {
        assert keep(s.outcome.func);
        if s.outcome.status == Skip || !crash(s.outcome.func) {
          PhaseKeeps(crash, keep, s.next, f, tries - 1);
        } else {
          PhaseKeeps(crash, keep, DidCrash(s.next).value, s.outcome.func, tries - 1);
        }
      } else if s.outcome.Faulted? {
        assert FaultsOn(m, f, s.outcome.fault);
      }
    }
  }

  lemma {:induction false} NewMutatorOk(phase: nat, f: Func)
    requires Inv(f) && phase < 8
    ensures NewMutator(phase, f).Ok? && CursorOk(NewMutator(phase, f).value, f)
  {
    hide Inv, Flatten, Once;
    InvLayout(f);
    BlockIndexAt(f.layout, 0);
    assert At(f.layout, 0, 0, f.layout[0].insts[0]);
  }

  lemma {:induction false} PassKeeps(crash: Func -> bool, keep: Func -> bool, f: Func, phase: nat)
    requires Inv(f) && crash(f) && keep(f) && Carried(keep) && phase <= 8
    ensures var r := RunPass(crash, f, phase);
            if r.PhaseEnd? then Inv(r.func) && keep(r.func) else FailsAt(r.fault, crash, keep, r.at)
    decreases 8 - phase
  {
    hide RunPhase, NewMutator, Inv, CursorOk, Carried, FailsAt;
    if phase < 8 {
      NewMutatorOk(phase, f);
      var m := NewMutator(phase, f).value;
      PhaseKeeps(crash, keep, m, f, MaxTries);
      PhaseCrashes(crash, m, f, MaxTries);
      var r := RunPhase(crash, m, f, MaxTries);
      if r.PhaseEnd? {
        PassKeeps(crash, keep, r.func, phase + 1);
      }
    }
  }

  lemma {:induction false} PassesKeep(crash: Func -> bool, keep: Func -> bool, f: Func, passes: nat)
    requires Inv(f) && crash(f) && keep(f) && Carried(keep)
    ensures var r := RunPasses(crash, f, passes);
            if r.Passes? then Inv(r.func) && Inv(r.start) && keep(r.func) && keep(r.start)
            else FailsAt(r.fault, crash, keep, r.at)
    decreases passes
  {
    hide RunPass, Inv, Carried, FailsAt;
    if passes > 0 {
      PassKeeps(crash, keep, f, 0);
      PassCrashes(crash, f, 0);
      var r := RunPass(crash, f, 0);
      if r.PhaseEnd? && r.shrank && passes > 1 {
        PassesKeep(crash, keep, r.func, passes - 1);
      }
    }
  }

  lemma {:induction false} ResolveKeepsInv(f: Func)
    requires Inv(f)
    ensures Inv(ResolveAllAliases(f))
  {
    hide Flatten, Root, Once;
    var g := ResolveAllAliases(f);
    assert forall i :: |Data(g.insts, i).dests| == |Data(f.insts, i).dests|;
    forall i | i in Flatten(f.layout) ensures ArityOk(g.params, Data(g.insts, i)) {
      assert ArityOk(f.params, Data(f.insts, i));
    }
    forall c | 0 <= c < |f.layout| ensures BranchesLast(g.insts, g.layout[c].insts) {
      assert BranchesLast(f.insts, f.layout[c].insts);
    }
    assert AllParams(g) == AllParams(f);
  }

  lemma SrclocsKeepInv(f: Func)
    requires Inv(f)
    ensures Inv(f.(srclocs := map[]))
  {
    assert AllParams(f.(srclocs := map[])) == AllParams(f);
  }

  /** The same for anything else that every step keeps. */
  lemma ReduceCarries(crash: Func -> bool, keep: Func -> bool, f: Func)
    requires Inv(f) && keep(f) && Carried(keep)
    ensures var r := Reduce(crash, f);
            && (r.Result? ==> Inv(r.func) && Inv(r.start) && keep(r.func) && keep(r.start))
            && (r.ReduceBroken? ==> FailsAt(r.fault, crash, keep, r.at))
  {
    hide RunPasses, Inv, ResolveAllAliases, FailsAt, AliasFree;
    InvAliasFree(f);
    if crash(f) {
      ResolveKeepsInv(f);
      assert KeptWhole(keep, f);
      var f1 := TryResolveAliases(crash, f).value;
      SrclocsKeepInv(f1);
      assert KeptWhole(keep, f1);
      var f2 := TryRemoveSrclocs(crash, f1);
      PassesKeep(crash, keep, f2, MaxPasses);
      PassesCrash(crash, f2, MaxPasses);
      var r := RunPasses(crash, f2, MaxPasses);
      if r.Passes? {
        InvAliasFree(r.func);
        ResolveKeepsInv(r.func);
        assert KeptWhole(keep, r.func);
      }
    }
  }

  lemma InvAliasFree(f: Func)
    requires Inv(f)
    ensures AliasFree(f.aliases)
  {
  }

  /**
    For every oracle, no `unwrap` or `expect` on the layout, no parameter index and no arity assertion
    fails, and every function that comes out keeps the invariant.  What can still stop a reduction is that the
    entry block of the function it has come to does not match the signature, or that a block there gets its own
    parameters in a circle from its only predecessor, or is its own only predecessor.
   */
  lemma ReduceKeeps(crash: Func -> bool, f: Func)
    requires Inv(f)
    ensures var r := Reduce(crash, f);
            && (r.Result? ==> Inv(r.func) && Inv(r.start))
            && (r.ReduceBroken? ==> Inv(r.at) && crash(r.at) && Excusable(r.fault, r.at) && exists m :: FaultsOn(m, r.at, r.fault))
  {
    hide Inv, Excusable, Reduce, FaultsOn;
    AnythingCarried();
    ReduceCarries(crash, Anything, f);
  }

  /** An oracle that accepts none of these never breaks a reduction. */
  lemma NeverBreaks(crash: Func -> bool, f: Func)
    requires Inv(f) && forall h :: crash(h) ==> EntryMatches(h) && !Tangled(h) && !SelfLooped(h)
    ensures !Reduce(crash, f).ReduceBroken?
  {
    hide Inv, Reduce, Tangled, SelfLooped;
    ReduceKeeps(crash, f);
  }
}
