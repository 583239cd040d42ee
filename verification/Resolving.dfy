/**
  Resolving aliases: no use of an alias is left, and the function does what it did.  And what a reduction resolves and
  removes before and after its passes.
 */
module Resolving {
  import opened Layouts
  import opened Clif
  import opened Mutators
  import opened Reduction
  import opened ReductionTheorems
  import opened Semantics
  import opened MergeSemantics

  // ----- Uses -----

  lemma {:induction false} RootNotAlias(aliases: map<Value, Value>, v: Value)
    requires AliasFree(aliases)
    ensures Root(aliases, v) !in aliases
  {
    if v !in aliases {
      assert Root(aliases, v) == v;
    }
  }

  /** After resolution no operand and no branch argument is a value that was an alias, and there are no aliases. */
  lemma {:induction false} NoAliasUsed(f: Func)
    requires AliasFree(f.aliases)
    ensures var g := ResolveAllAliases(f);
            g.aliases == map[] && forall i, v :: Uses(Data(g.insts, i), v) ==> v !in f.aliases
  {
    hide Root, AliasFree;
    var g := ResolveAllAliases(f);
    forall i, v | Uses(Data(g.insts, i), v) ensures v !in f.aliases {
      var d, e := Data(f.insts, i), Data(g.insts, i);
      assert i in f.insts;
      if v in e.args {
        var k :| 0 <= k < |e.args| && e.args[k] == v;
        RootNotAlias(f.aliases, d.args[k]);
      } else {
        var k, j :| 0 <= k < |e.dests| && 0 <= j < |e.dests[k].args| && e.dests[k].args[j] == ValueArg(v);
        RootNotAlias(f.aliases, d.dests[k].args[j].value);
      }
    }
  }

  // ----- Runs -----

  lemma RootsStay(aliases: map<Value, Value>, v: Value)
    ensures Root(map[], Root(aliases, v)) == Root(aliases, v)
  {
  }

  lemma {:induction false} ReadsSame(f: Func, env: Env, i: Inst)
    ensures var g, d, e := ResolveAllAliases(f), Data(f.insts, i), Data(ResolveAllAliases(f).insts, i);
            && ReadAll(g, env, e.args) == ReadAll(f, env, d.args)
            && e == d.(args := e.args, dests := e.dests) && |e.dests| == |d.dests|
            && forall k, extras :: 0 <= k < |d.dests| ==>
                 e.dests[k].block == d.dests[k].block && ReadArgs(g, env, e.dests[k].args, extras) == ReadArgs(f, env, d.dests[k].args, extras)
  {
    hide Root;
    var g, d, e := ResolveAllAliases(f), Data(f.insts, i), Data(ResolveAllAliases(f).insts, i);
    forall v ensures Root(map[], Root(f.aliases, v)) == Root(f.aliases, v) {
      RootsStay(f.aliases, v);
    }
    if i in f.insts {
      assert forall k :: 0 <= k < |d.args| ==> Read(g, env, e.args[k]) == Read(f, env, d.args[k]);
      forall k, extras | 0 <= k < |d.dests|
        ensures e.dests[k].block == d.dests[k].block && ReadArgs(g, env, e.dests[k].args, extras) == ReadArgs(f, env, d.dests[k].args, extras)
      {
        assert forall j :: 0 <= j < |d.dests[k].args| ==>
            ReadArg(g, env, e.dests[k].args[j], extras) == ReadArg(f, env, d.dests[k].args[j], extras);
      }
    }
  }

  lemma {:induction false} RunInstsSame<W(!new)>(f: Func, sem: Sem<W>, s: seq<Inst>, env: Env, w: W)
    ensures RunInsts(ResolveAllAliases(f), sem, s, env, w) == RunInsts(f, sem, s, env, w)
    decreases |s|
  {
    hide ResolveAllAliases, ReadAll, ReadArgs;
    if s != [] {
      var g, d := ResolveAllAliases(f), Data(f.insts, s[0]);
      ReadsSame(f, env, s[0]);
      OnlyInsts(f);
      if !(d.format.Jump? && d.dests != []) {
        var e := sem(s[0], ReadAll(f, env, d.args), w);
        if e.Next? {
          RunInstsSame(f, sem, s[1..], Bind(env, ResultsOf(f.results, s[0]), e.results), e.world);
        }
      }
    }
  }

  lemma OnlyInsts(f: Func)
    ensures var g := ResolveAllAliases(f); g == f.(insts := g.insts, aliases := map[])
  {
  }

  lemma {:induction false} RunSame<W(!new)>(f: Func, sem: Sem<W>, b: Block, args: seq<int>, env: Env, w: W, fuel: nat)
    ensures Run(ResolveAllAliases(f), sem, b, args, env, w, fuel) == Run(f, sem, b, args, env, w, fuel)
    decreases fuel
  {
    hide ResolveAllAliases, RunInsts;
    OnlyInsts(f);
    if fuel > 0 {
      var g := ResolveAllAliases(f);
      RunInstsSame(f, sem, InstsOf(f.layout, b), Bind(env, ParamsOf(f.params, b), args), w);
      var e := RunBlock(f, sem, b, args, env, w);
      if e.Goto? {
        RunSame(f, sem, e.block, e.args, e.env, e.world, fuel - 1);
      }
    }
  }

  /** Whatever the instructions do: the resolved function comes to exactly the outcomes of the original. */
  lemma {:induction false} ResolvePreservesMeaning<W(!new)>(f: Func, sem: Sem<W>, args: seq<int>, w: W, o: Semantics.Outcome<W>)
    ensures Produces(ResolveAllAliases(f), sem, args, w, o) <==> Produces(f, sem, args, w, o)
  {
    hide ResolveAllAliases, Run;
    var g := ResolveAllAliases(f);
    OnlyInsts(f);
    if f.layout != [] {
      forall fuel: nat ensures Run(g, sem, f.layout[0].id, args, map[], w, fuel) == Run(f, sem, f.layout[0].id, args, map[], w, fuel) {
        RunSame(f, sem, f.layout[0].id, args, map[], w, fuel);
      }
    }
  }

  // ----- Whole reductions -----

  lemma {:induction false} MutateSrclocs(m: Mutator, f: Func)
    ensures Mutate(m, f).outcome.Mutated? ==> Mutate(m, f).outcome.func.srclocs == f.srclocs
  {
    hide MutateReplaceInstWithConst, MutateReplaceParam, MutateEntities, NextInstRetPrev, Layouts.RemoveInst, InsertInst, Preds, AliasParams, MergedLayout;
    match m
    case ReplaceInstWithConst(b, i) => ConstSrclocs(b, i, f);
    case ReplaceBlockParamWithConst(b, r) => ReplaceParamSrclocs(b, r, f);
    case RemoveUnusedEntities(k) => EntitiesSrclocs(k, f);
    case _ =>
  }

  lemma ConstSrclocs(b: Block, i: Inst, f: Func)
    ensures var s := MutateReplaceInstWithConst(b, i, f); s.outcome.Mutated? ==> s.outcome.func.srclocs == f.srclocs
  {
    hide NextInstRetPrev, InsertConsts, Layouts.RemoveInst, AlreadyConst;
    ConstsSrclocs(f.(results := f.results[i := []]), ResultsOf(f.results, i), i);
  }

  lemma ReplaceParamSrclocs(b: Block, r: nat, f: Func)
    ensures var s := MutateReplaceParam(b, r, f); s.outcome.Mutated? ==> s.outcome.func.srclocs == f.srclocs
  {
    hide SeekParam, ParamByConst, FirstInst, EntryBlock;
    match SeekParam(f, b, r)
    case None =>
    case Some((c, q)) =>
      if q - 1 < |ParamsOf(f.params, c)| && FirstInst(f.layout, c).Some? {
        ParamSrclocs(f, c, q - 1, FirstInst(f.layout, c).value);
      }
  }

  lemma EntitiesSrclocs(k: nat, f: Func)
    ensures var s := MutateEntities(k, f); s.outcome.Mutated? ==> s.outcome.func.srclocs == f.srclocs
  {
    hide UsedBy, Keep, RenumberInsts, SignaturesUsed, OnlySimpleGlobals;
  }

  lemma {:induction false} ConstsSrclocs(f: Func, vs: seq<Value>, before: Inst)
    ensures InsertConsts(f, vs, before).srclocs == f.srclocs
    decreases |vs|
  {
    hide InsertInst;
    if vs != [] {
      ConstsSrclocs(InsertConst(f, vs[0], before), vs[1..], before);
    }
  }

  lemma ParamSrclocs(f: Func, b: Block, k: nat, first: Inst)
    requires k < |ParamsOf(f.params, b)|
    ensures ParamByConst(f, b, k, first).srclocs == f.srclocs
  {
    hide InsertInst, Preds;
  }

  function NoSrclocs(f: Func): bool {
    f.srclocs == map[]
  }

  lemma NoSrclocsCarried()
    ensures Carried(NoSrclocs)
  {
    forall m, h | Mutate(m, h).outcome.Mutated? ensures Mutate(m, h).outcome.func.srclocs == h.srclocs {
      MutateSrclocs(m, h);
    }
    hide Mutate;
  }

  /** What the oracle accepts of a function with its aliases resolved is that, and otherwise the function. */
  function Resolved(crash: Func -> bool, f: Func): Func {
    if crash(ResolveAllAliases(f)) then ResolveAllAliases(f) else f
  }

  function Unlocated(crash: Func -> bool, f: Func): Func {
    if crash(f.(srclocs := map[])) then f.(srclocs := map[]) else f
  }

  /**
    A reduction starts its passes from the function with aliases resolved and then source locations removed, each if it
    still crashes, and returns what they end on with aliases resolved if that still crashes.  In what it returns no
    value is used that was an alias and is none any more; it does what the passes ended on does; and it has no source
    locations if the oracle let them be removed.
   */
  lemma {:induction false} ReduceResolves(crash: Func -> bool, f: Func) returns (last: Func)
    requires Inv(f) && Reduce(crash, f).Result?
    ensures var r, first := Reduce(crash, f), Unlocated(crash, Resolved(crash, f));
            && RunPasses(crash, first, MaxPasses) == Passes(last, r.start, r.settled)
            && r.func == Resolved(crash, last) && AliasFree(last.aliases)
            && (forall i, v :: Uses(Data(r.func.insts, i), v) && v in last.aliases ==> v in r.func.aliases)
            && (crash(Resolved(crash, f).(srclocs := map[])) ==> r.func.srclocs == map[])
  {
    hide RunPasses, Inv, ResolveAllAliases, AliasFree, Uses;
    var first := Unlocated(crash, Resolved(crash, f));
    InvAliasFree(f);
    ResolveKeepsInv(f);
    SrclocsKeepInv(Resolved(crash, f));
    last := RunPasses(crash, first, MaxPasses).func;
    AnythingCarried();
    PassesKeep(crash, Anything, first, MaxPasses);
    InvAliasFree(last);
    NoAliasUsed(last);
    OnlyInsts(last);
    if crash(Resolved(crash, f).(srclocs := map[])) {
      NoSrclocsCarried();
      PassesKeep(crash, NoSrclocs, first, MaxPasses);
    }
  }
}
