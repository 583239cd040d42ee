/**
  A function and the one with a block merged into its predecessor run in step: one block of the merged
  function is one block of the original, or the predecessor and the merged block after each other.
 */
module MergeSimulation {
  import opened Options
  import opened Layouts
  import opened Clif
  import opened Mutators
  import opened Invariants
  import opened MutatorsKeep
  import opened BlockMutatorsKeep
  import opened Semantics
  import opened MergeSemantics

  /** The arguments that the predecessor passes. */
  function JumpArgs(f: Func, b: Block): seq<BlockArg>
    requires |Preds(f, b)| == 1 && |Data(f.insts, Preds(f, b)[0].inst).dests| == 1
  {
    Data(f.insts, Preds(f, b)[0].inst).dests[0].args
  }

  /** `g` is `f` with `b` merged into its predecessor. */
  ghost predicate IsMerge(f: Func, b: Block, g: Func) {
    && Mergeable(f, b)
    && |JumpArgs(f, b)| == |ParamsOf(f.params, b)|
    && AliasParams(f.aliases, ParamsOf(f.params, b), JumpArgs(f, b)).Ok?
    && g == f.(aliases := AliasParams(f.aliases, ParamsOf(f.params, b), JumpArgs(f, b)).value,
               params := f.params[b := []],
               layout := MergedLayout(f.layout, Preds(f, b)[0], b))
  }

  /**
    Where the predecessor can be reached, no argument stands for a parameter, because a use of the parameter
    there would be dominated by the block; so the parameters can be made aliases.
   */
  lemma {:induction false} MergeableAliases(f: Func, b: Block, path: seq<Block>)
    requires Mergeable(f, b) && IsPath(f, path) && path[|path| - 1] == Preds(f, b)[0].block
    ensures |Data(f.insts, Preds(f, b)[0].inst).dests| == 1
    ensures |JumpArgs(f, b)| == |ParamsOf(f.params, b)|
    ensures AliasParams(f.aliases, ParamsOf(f.params, b), JumpArgs(f, b)).Ok?
  {
    hide Mergeable, Preds, AliasParams, IsPath, Inv, TangledAt;
    MergeableShape(f, b);
    MergeableBasics(f, b);
    MergeStep(f, b);
    NotTangled(f, b, path);
  }

  lemma {:induction false} NotTangled(f: Func, b: Block, path: seq<Block>)
    requires Mergeable(f, b) && IsPath(f, path) && path[|path| - 1] == Preds(f, b)[0].block
    ensures !TangledAt(f, b)
  {
    hide Mergeable, Preds, IsPath, Inv, Root;
    MergeableShape(f, b);
    MergeableBasics(f, b);
    var pred := Preds(f, b)[0];
    var ps, args := ParamsOf(f.params, b), JumpArgs(f, b);
    forall k: nat | k < |args| && args[k].ValueArg? ensures Root(f.aliases, args[k].value) !in ps {
      PredInst(f, b);
      assert Uses(Data(f.insts, pred.inst), args[k].value);
      PredUsesNone(f, b, path, pred.inst, args[k].value);
    }
    forall knot ensures !Knot(f.aliases, ps, args, knot) {
      if Knot(f.aliases, ps, args, knot) {
        var k := KnotNames(f.aliases, ps, args, knot);
      }
    }
  }

  lemma PredInst(f: Func, b: Block)
    requires Inv(f) && HasSolePred(f, b)
    ensures Preds(f, b)[0].inst in InstsOf(f.layout, Preds(f, b)[0].block)
  {
    hide PredsIn, BlockIndex, Flatten, Once, AliasFree, AllArityOk;
    var c := PredsSound(f.insts, f.layout, b, Preds(f, b)[0]);
    BlockIndexAt(f.layout, c);
  }

  /** Where the hypotheses of merging hold and the predecessor can be reached, the mutator returns the merge. */
  lemma {:induction false} MutatorMerges(f: Func, block: Block, prev: Option<Block>, b: Block, path: seq<Block>)
    requires NextBlock(f.layout, block) == Some(b) && Mergeable(f, b)
    requires IsPath(f, path) && path[|path| - 1] == Preds(f, b)[0].block
    ensures var s := MutateMergeBlocks(block, prev, f);
            && s.next == MergeBlocks(b, Some(Preds(f, b)[0].block))
            && s.outcome.Mutated? && s.outcome.status == ExpandedOrShrinked && IsMerge(f, b, s.outcome.func)
  {
    hide Mergeable, Preds, MergedLayout, AliasParams, IsPath;
    MergeableShape(f, b);
    MergeableAliases(f, b, path);
  }

  lemma MergeableShape(f: Func, b: Block)
    requires Mergeable(f, b)
    ensures |Preds(f, b)| == 1 && |Data(f.insts, Preds(f, b)[0].inst).dests| == 1 && Preds(f, b)[0].block != b
  {
  }

  // ----- Layout -----

  lemma {:induction false} InstsOfMergedAt(l: Layout, pi: nat, bi: nat, c: Block)
    requires DistinctIds(l) && NoEmptyBlock(l) && pi < |l| && bi < |l| && pi != bi && c != l[bi].id
    ensures InstsOf(MergedAt(l, pi, bi), c) ==
            if c == l[pi].id then l[pi].insts[..|l[pi].insts| - 1] + l[bi].insts else InstsOf(l, c)
  {
    hide BlockIndex;
    var m := MergedAt(l, pi, bi);
    MergedAtBlocks(l, pi, bi);
    match BlockIndex(l, c)
    case Some(k) =>
      var k' := if k < bi then k else k - 1;
      assert m[k'].id == c;
      BlockIndexAt(m, k');
    case None =>
      assert forall k :: 0 <= k < |m| ==> m[k].id == l[if k < bi then k else k + 1].id;
  }

  /** The predecessor's instructions before its jump. */
  function Init(f: Func, b: Block): seq<Inst>
    requires |Preds(f, b)| == 1
  {
    var s := InstsOf(f.layout, Preds(f, b)[0].block);
    if s == [] then [] else s[..|s| - 1]
  }

  function MergedBody(f: Func, b: Block, c: Block): seq<Inst>
    requires |Preds(f, b)| == 1
  {
    if c == Preds(f, b)[0].block then Init(f, b) + InstsOf(f.layout, b) else InstsOf(f.layout, c)
  }

  lemma {:induction false} MergedInsts(f: Func, b: Block, g: Func)
    requires IsMerge(f, b, g)
    ensures var pred := Preds(f, b)[0];
            && InstsOf(f.layout, pred.block) == Init(f, b) + [pred.inst]
            && (forall c :: c != b ==> InstsOf(g.layout, c) == MergedBody(f, b, c))
            && g.layout != [] && f.layout != [] && g.layout[0].id == f.layout[0].id
  {
    hide Dominates, Defines, Uses, PredsIn, Flatten, Once, MergedLayout, AliasFree, AllArityOk, AliasParams;
    var l, pred, bi := f.layout, Preds(f, b)[0], BlockIndex(f.layout, b).value;
    var pi := PredsSound(f.insts, l, b, pred);
    BlockIndexAt(l, pi);
    MergedLayoutAt(l, pi, bi);
    forall c | c != b ensures InstsOf(g.layout, c) == MergedBody(f, b, c) {
      InstsOfMergedAt(l, pi, bi, c);
    }
    var s := l[pi].insts;
    assert s == s[..|s| - 1] + [s[|s| - 1]];
  }

  // ----- Aliases -----

  lemma {:induction false} MergedAliases(f: Func, b: Block, g: Func)
    requires IsMerge(f, b, g)
    ensures AliasRel(f, g, ParamsOf(f.params, b))
  {
    hide Dominates, Defines, Uses, PredsIn, Flatten, Once, MergedLayout, AliasFree, AllArityOk, AliasParams, Root;
    var ps := ParamsOf(f.params, b);
    ParamsOfLaidOut(f, BlockIndex(f.layout, b).value);
    forall v ensures Root(g.aliases, v) == if Root(f.aliases, v) in ps then Root(g.aliases, Root(f.aliases, v)) else Root(f.aliases, v) {
      AliasParamsOthers(f.aliases, ps, JumpArgs(f, b), v);
    }
  }

  lemma {:induction false} JumpUses(f: Func, b: Block, k: nat)
    requires Mergeable(f, b) && k < |JumpArgs(f, b)|
    ensures JumpArgs(f, b)[k].ValueArg? && Uses(Data(f.insts, Preds(f, b)[0].inst), JumpArgs(f, b)[k].value)
  {
    hide Dominates, Defines, PredsIn, Flatten, Once, AliasFree, AllArityOk, Root;
    var d := Data(f.insts, Preds(f, b)[0].inst);
    assert d.dests[0].args[k] in d.dests[0].args;
    assert UsesIn(d.dests, JumpArgs(f, b)[k].value);
  }

  /** Once the predecessor is reached, each parameter stands for the argument passed for it. */
  lemma {:induction false} ParamRoots(f: Func, b: Block, g: Func, path: seq<Block>)
    requires IsMerge(f, b, g) && IsPath(f, path) && path[|path| - 1] == Preds(f, b)[0].block
    ensures var ps, args := ParamsOf(f.params, b), JumpArgs(f, b);
            forall k :: 0 <= k < |ps| ==>
              && args[k].ValueArg? && Root(f.aliases, args[k].value) !in ps
              && Root(g.aliases, ps[k]) == Root(f.aliases, args[k].value)
  {
    hide Dominates, Defines, Uses, PredsIn, Flatten, Once, MergedLayout, AliasFree, AllArityOk, IsPath, AliasParams;
    var ps, args, pred := ParamsOf(f.params, b), JumpArgs(f, b), Preds(f, b)[0];
    ParamsOfLaidOut(f, BlockIndex(f.layout, b).value);
    MergedInsts(f, b, g);
    forall k | 0 <= k < |args| ensures args[k].ValueArg? && Root(f.aliases, args[k].value) !in ps {
      JumpUses(f, b, k);
      PredUsesNone(f, b, path, pred.inst, args[k].value);
    }
    forall k | 0 <= k < |ps| ensures Root(g.aliases, ps[k]) == Root(f.aliases, args[k].value) {
      assert Root(f.aliases, ps[k]) == ps[k];
      AliasParamsRoots(f.aliases, ps, args, ps[k]);
    }
  }

  // ----- When a parameter still has the value of its argument -----

  /** Since the path was last in `b`, nothing has given `v` a new value. */
  ghost predicate Fresh(f: Func, b: Block, path: seq<Block>, v: Value) {
    exists j :: 0 <= j < |path| && path[j] == b && forall m :: j < m < |path| ==> !Defines(f, path[m], v)
  }

  lemma {:induction false} FreshBefore(f: Func, b: Block, path: seq<Block>, c: Block, v: Value)
    requires Fresh(f, b, path + [c], v) && c != b
    ensures Fresh(f, b, path, v) && !Defines(f, c, v)
  {
    hide Defines;
    var q := path + [c];
    var j :| 0 <= j < |q| && q[j] == b && forall m :: j < m < |q| ==> !Defines(f, q[m], v);
    assert q[|path|] == c;
    forall m | j < m < |path| ensures !Defines(f, path[m], v) {
      assert q[m] == path[m];
    }
    assert path[j] == b;
  }

  /** A path that comes to `b` has been, before it, where the predecessor is dominated from. */
  lemma {:induction false} DominatorBefore(f: Func, b: Block, path: seq<Block>, d: Block) returns (a: nat)
    requires Mergeable(f, b) && IsPath(f, path) && b in path
    requires Dominates(f, d, Preds(f, b)[0].block)
    ensures a < |path| && path[a] == d && b !in path[..a + 1]
  {
    hide Mergeable, Preds, Edge;
    MergeableBasics(f, b);
    var j := FirstVisit(f, b, path);
    var q := path[..j];
    assert d in q;
    a :| 0 <= a < j && q[a] == d;
    assert path[..a + 1] <= q;
  }

  lemma NotDominated(f: Func, b: Block, c: Block, path: seq<Block>)
    requires IsPath(f, path) && path[|path| - 1] == c && b !in path
    ensures !Dominates(f, b, c)
  {
  }

  /** A value that is given anew where the predecessor is dominated, is not given anew where `b` dominates. */
  lemma {:induction false} NotDefinedBelow(f: Func, b: Block, path: seq<Block>, c: Block)
    requires Mergeable(f, b) && IsPath(f, path) && b in path
    requires Dominates(f, c, Preds(f, b)[0].block)
    ensures c != b && !Dominates(f, b, c)
  {
    hide Mergeable, Preds, Dominates, Edge;
    var a := DominatorBefore(f, b, path, c);
    var q := path[..a + 1];
    assert q[a] == c;
    PathPrefix(f, path, a + 1);
    NotDominated(f, b, c, q);
  }

  lemma {:induction false} PathJoin(f: Func, path: seq<Block>, a: nat, m: nat)
    requires IsPath(f, path) && a <= m < |path| && path[a] == path[m]
    ensures IsPath(f, path[..a + 1] + path[m + 1..])
  {
    hide Edge;
    var q := path[..a + 1] + path[m + 1..];
    forall k | 0 <= k < |q| - 1 ensures Edge(f, q[k], q[k + 1]) {
      if k < a {
        assert q[k] == path[k] && q[k + 1] == path[k + 1];
      } else {
        assert q[k] == path[m + (k - a)] && q[k + 1] == path[m + (k - a) + 1];
      }
    }
  }

  /** Where `b` dominates, no definition that dominates the predecessor lies between `b` and here. */
  lemma {:induction false} FreshWhereDominated(f: Func, b: Block, path: seq<Block>, c: Block, v: Value)
    requires Mergeable(f, b) && IsPath(f, path + [c]) && c != b && Dominates(f, b, c)
    requires forall d :: Defines(f, d, v) ==> Dominates(f, d, Preds(f, b)[0].block)
    ensures Fresh(f, b, path, v) && !Defines(f, c, v)
  {
    hide Mergeable, Preds, Defines, Edge;
    var whole := path + [c];
    assert whole[|whole| - 1] == c;
    assert b in whole;
    assert b in path;
    if Defines(f, c, v) {
      NotDefinedBelow(f, b, whole, c);
    }
    var j := LastIndex(path, b);
    forall m | j < m < |path| ensures !Defines(f, path[m], v) {
      if Defines(f, path[m], v) {
        NotBetween(f, b, path, c, j, m);
      }
    }
  }

  lemma {:induction false} NotBetween(f: Func, b: Block, path: seq<Block>, c: Block, j: nat, m: nat)
    requires Mergeable(f, b) && IsPath(f, path + [c]) && c != b && b in path
    requires j < m < |path| && forall k :: j < k < |path| ==> path[k] != b
    requires Dominates(f, path[m], Preds(f, b)[0].block)
    ensures !Dominates(f, b, c)
  {
    hide Mergeable, Preds, Dominates, Edge, IsPath;
    var whole := path + [c];
    assert whole[m] == path[m];
    var a := DominatorBefore(f, b, whole, path[m]);
    NoneLeft(path, b, c, m);
    var i :| 0 <= i < |path| && path[i] == b;
    assert whole[i] == b;
    ShorterPath(f, b, whole, a, m);
    assert whole[m + 1..][|path| - m - 1] == c;
    NotDominated(f, b, c, whole[..a + 1] + whole[m + 1..]);
  }

  lemma NoneLeft(path: seq<Block>, b: Block, c: Block, m: nat)
    requires c != b && m < |path| && forall k :: m <= k < |path| ==> path[k] != b
    ensures b !in (path + [c])[m + 1..]
  {
  }

  lemma ShorterPath(f: Func, b: Block, path: seq<Block>, a: nat, m: nat)
    requires IsPath(f, path) && a <= m < |path| && path[a] == path[m] && b !in path[..a + 1] && b !in path[m + 1..]
    ensures var q := path[..a + 1] + path[m + 1..]; IsPath(f, q) && b !in q
  {
    hide Edge, IsPath;
    PathJoin(f, path, a, m);
  }

  // ----- One step -----

  /** Both sides after the blocks of `path`. */
  ghost predicate Related(f: Func, b: Block, g: Func, path: seq<Block>, e1: Env, e2: Env) {
    && Agree(ParamsOf(f.params, b), e1, e2)
    && forall p :: p in ParamsOf(f.params, b) && Fresh(f, b, path, Root(g.aliases, p)) ==> Linked(g, e1, e2, p)
  }

  lemma MergeableLaidOut(f: Func, b: Block)
    requires Mergeable(f, b)
    ensures BlockIndex(f.layout, b).Some? && WfLayout(f.layout) && Once(AllParams(f))
  {
    hide Dominates, Defines, Uses, PredsIn, Flatten, AliasFree, AllArityOk, Root;
  }

  /** A block outside the layout has no instructions; the parameters of the others are all distinct. */
  lemma {:induction false} OtherParams(f: Func, b: Block, c: Block, p: Value)
    requires Mergeable(f, b) && c != b && BlockIndex(f.layout, c).Some? && p in ParamsOf(f.params, b)
    ensures p !in ParamsOf(f.params, c)
  {
    hide Mergeable, BlockIndex, ParamsIn, Once, Inv;
    MergeableLaidOut(f, b);
    var l, bi, ci := f.layout, BlockIndex(f.layout, b).value, BlockIndex(f.layout, c).value;
    ParamsRemoveBlock(f.params, l, bi);
    var m := l[..bi] + l[bi + 1..];
    var ci' := if ci < bi then ci else ci - 1;
    assert m[ci'] == l[ci];
    OnceDisjoint(AllParams(f), ParamsOf(f.params, b), ParamsIn(f.params, m), p);
    if p in ParamsOf(f.params, c) {
      InParams(f.params, m, ci', p);
    }
  }

  /** A parameter used in a reached block other than `b` still has the value of its argument there. */
  lemma {:induction false} UseIsFresh(f: Func, b: Block, g: Func, path: seq<Block>, c: Block, i: Inst, v: Value)
    requires IsMerge(f, b, g) && IsPath(f, path + [c]) && c != b
    requires i in InstsOf(f.layout, c) && Uses(Data(f.insts, i), v) && Root(f.aliases, v) in ParamsOf(f.params, b)
    ensures var t := Root(g.aliases, Root(f.aliases, v)); Fresh(f, b, path, t) && !Defines(f, c, t)
  {
    hide Defines, Uses, PredsIn, Flatten, Once, MergedLayout, AliasFree, AllArityOk, Root, Fresh, Edge, AliasParams;
    var whole := path + [c];
    assert Dominates(f, b, c) && whole[|whole| - 1] == c;
    assert b in whole;
    MergeableBasics(f, b);
    var j := FirstVisit(f, b, whole);
    var ps, args := ParamsOf(f.params, b), JumpArgs(f, b);
    ParamRoots(f, b, g, whole[..j]);
    var k :| 0 <= k < |ps| && ps[k] == Root(f.aliases, v);
    var t := Root(g.aliases, ps[k]);
    assert t == Root(f.aliases, args[k].value) && args[k] in args;
    FreshWhereDominated(f, b, path, c, t);
  }

  lemma EnterAgree(ps: seq<Value>, e1: Env, e2: Env, vs: seq<Value>, xs: seq<int>)
    requires Agree(ps, e1, e2)
    ensures Agree(ps, Bind(e1, vs, xs), Bind(e2, vs, xs))
  {
    forall v | v !in ps ensures Val(Bind(e1, vs, xs), v) == Val(Bind(e2, vs, xs), v) {
      BindBoth(e1, e2, vs, xs, v);
    }
  }

  lemma {:induction false} EnterSafe(
    f: Func, b: Block, g: Func, path: seq<Block>, c: Block, args: seq<int>, e1: Env, e2: Env)
    requires IsMerge(f, b, g) && IsPath(f, path + [c]) && c != b && BlockIndex(f.layout, c).Some?
    requires Related(f, b, g, path, e1, e2)
    ensures var vs := ParamsOf(f.params, c);
            Safe(f, g, ParamsOf(f.params, b), Bind(e1, vs, args), Bind(e2, vs, args), InstsOf(f.layout, c))
  {
    hide IsMerge, Uses, Root, Fresh, Edge, IsPath, Agree;
    var ps, vs, s := ParamsOf(f.params, b), ParamsOf(f.params, c), InstsOf(f.layout, c);
    var b1, b2 := Bind(e1, vs, args), Bind(e2, vs, args);
    forall i, v | i in s && Uses(Data(f.insts, i), v) && Root(f.aliases, v) in ps
      ensures Linked(g, b1, b2, Root(f.aliases, v)) && Untouched(f, s, Root(g.aliases, Root(f.aliases, v)))
    {
      var p := Root(f.aliases, v);
      UseIsFresh(f, b, g, path, c, i, v);
      IsMergeMergeable(f, b, g);
      OtherParams(f, b, c, p);
      BindOther(e1, vs, args, p);
      BindOther(e2, vs, args, Root(g.aliases, p));
    }
  }

  lemma IsMergeMergeable(f: Func, b: Block, g: Func)
    requires IsMerge(f, b, g)
    ensures Mergeable(f, b) && g.insts == f.insts && g.results == f.results && g.params == f.params[b := []]
    ensures |Preds(f, b)| == 1 && Preds(f, b)[0].block != b
    ensures forall c, p :: p in ParamsOf(f.params, b) ==> Untouched(f, InstsOf(f.layout, c), p)
  {
  }

  /** Passing through a block that gives the alias no new value keeps a parameter linked. */
  lemma {:induction false} LinkThrough<W(!new)>(
    f: Func, g: Func, sem: Sem<W>, vs: seq<Value>, xs: seq<int>, s: seq<Inst>, e1: Env, e2: Env, w: W, p: Value)
    requires g.results == f.results && Linked(g, e1, e2, p)
    requires p !in vs && Untouched(f, s, p) && Root(g.aliases, p) !in vs && Untouched(f, s, Root(g.aliases, p))
    ensures var a1, a2 := RunInsts(f, sem, s, Bind(e1, vs, xs), w), RunInsts(g, sem, s, Bind(e2, vs, xs), w);
            a1.Goto? && a2.Goto? ==> Linked(g, a1.env, a2.env, p)
  {
    hide Root, RunInsts;
    var t := Root(g.aliases, p);
    BindOther(e1, vs, xs, p);
    BindOther(e2, vs, xs, t);
    RunInstsKeeps(f, sem, s, Bind(e1, vs, xs), w, p);
    RunInstsKeeps(g, sem, s, Bind(e2, vs, xs), w, t);
  }

  /** A block that is neither the predecessor nor the merged one does the same on both sides. */
  lemma {:induction false} OtherBlockStep<W(!new)>(
    f: Func, b: Block, g: Func, sem: Sem<W>, path: seq<Block>, c: Block, args: seq<int>, e1: Env, e2: Env, w: W)
    requires IsMerge(f, b, g) && IsPath(f, path + [c]) && c != b && c != Preds(f, b)[0].block
    requires Related(f, b, g, path, e1, e2)
    ensures var a1, a2 := RunBlock(f, sem, c, args, e1, w), RunBlock(g, sem, c, args, e2, w);
            SameEnd(ParamsOf(f.params, b), a1, a2) && (a1.Goto? ==> Related(f, b, g, path + [c], a1.env, a2.env))
  {
    hide IsMerge, Mergeable, Preds, Uses, Root, Fresh, Edge, IsPath, Agree, Safe, Linked, AliasRel;
    IsMergeMergeable(f, b, g);
    MergedInsts(f, b, g);
    MergedAliases(f, b, g);
    var ps, vs, s := ParamsOf(f.params, b), ParamsOf(f.params, c), InstsOf(f.layout, c);
    EnterAgree(ps, e1, e2, vs, args);
    if BlockIndex(f.layout, c).Some? {
      EnterSafe(f, b, g, path, c, args, e1, e2);
      RunInstsAgree(f, g, sem, ps, s, Bind(e1, vs, args), Bind(e2, vs, args), w);
      var a1, a2 := RunBlock(f, sem, c, args, e1, w), RunBlock(g, sem, c, args, e2, w);
      if a1.Goto? {
        forall p | p in ps && Fresh(f, b, path + [c], Root(g.aliases, p)) ensures Linked(g, a1.env, a2.env, p) {
          FreshBefore(f, b, path, c, Root(g.aliases, p));
          OtherParams(f, b, c, p);
          LinkThrough(f, g, sem, vs, args, s, e1, e2, w, p);
        }
      }
    }
  }

  lemma SafeSub(f: Func, g: Func, ps: seq<Value>, e1: Env, e2: Env, s: seq<Inst>, t: seq<Inst>)
    requires Safe(f, g, ps, e1, e2, s) && forall i :: i in t ==> i in s
    ensures Safe(f, g, ps, e1, e2, t)
  {
    hide Root, Uses, Linked;
  }

  lemma {:induction false} NoBranch<W(!new)>(f: Func, sem: Sem<W>, s: seq<Inst>, env: Env, w: W)
    requires forall i :: i in s ==> Data(f.insts, i).dests == []
    ensures !RunInsts(f, sem, s, env, w).Goto?
    decreases |s|
  {
    if s != [] {
      var e := sem(s[0], ReadAll(f, env, Data(f.insts, s[0]).args), w);
      assert s[0] in s;
      if e.Next? {
        NoBranch(f, sem, s[1..], Bind(env, ResultsOf(f.results, s[0]), e.results), e.world);
      }
    }
  }

  lemma {:induction false} InitHasNoBranch(f: Func, b: Block)
    requires Mergeable(f, b)
    ensures forall i :: i in Init(f, b) ==> Data(f.insts, i).dests == []
    ensures var d := Data(f.insts, Preds(f, b)[0].inst); d.format.Jump? && |d.dests| == 1 && d.dests[0].block == b
  {
    hide Dominates, Defines, Uses, Flatten, Once, AliasFree, AllArityOk, Root, PredsIn;
    var pred := Preds(f, b)[0];
    var pi := PredsSound(f.insts, f.layout, b, pred);
    BlockIndexAt(f.layout, pi);
    assert BranchesLast(f.insts, f.layout[pi].insts);
  }

  /** The merged block does not define what the jump passes to it, if it is ever reached. */
  lemma {:induction false} ArgsNotDefinedHere(f: Func, b: Block, g: Func, path: seq<Block>, p: Value)
    requires IsMerge(f, b, g) && IsPath(f, path) && path[|path| - 1] == Preds(f, b)[0].block
    requires p in ParamsOf(f.params, b)
    ensures Untouched(f, InstsOf(f.layout, b), Root(g.aliases, p))
  {
    hide Uses, PredsIn, Flatten, Once, MergedLayout, AliasFree, AllArityOk, Root, AliasParams, IsPath;
    var ps, args, t := ParamsOf(f.params, b), JumpArgs(f, b), Root(g.aliases, p);
    ParamRoots(f, b, g, path);
    var k :| 0 <= k < |ps| && ps[k] == p;
    assert args[k] in args && t == Root(f.aliases, args[k].value);
    MergeableBasics(f, b);
    var q := PathToPred(f, b, path);
    assert IsPath(f, q) && !Dominates(f, b, Preds(f, b)[0].block);
  }

  /** The state in which the merged block's instructions start: parameters bound on the one side only. */
  lemma {:induction false} BoundByJump(f: Func, b: Block, g: Func, path: seq<Block>, e1: Env, e2: Env)
    requires IsMerge(f, b, g) && IsPath(f, path) && path[|path| - 1] == Preds(f, b)[0].block
    requires Agree(ParamsOf(f.params, b), e1, e2)
    ensures var ps := ParamsOf(f.params, b);
            var bound := Bind(e1, ps, ReadArgs(f, e1, JumpArgs(f, b), []));
            Agree(ps, bound, e2) && forall p :: p in ps ==> Linked(g, bound, e2, p)
  {
    hide Uses, PredsIn, Flatten, MergedLayout, AliasFree, AllArityOk, Root, AliasParams, IsPath, Dominates, Defines;
    var ps, args := ParamsOf(f.params, b), JumpArgs(f, b);
    var xs := ReadArgs(f, e1, args, []);
    var bound := Bind(e1, ps, xs);
    ParamRoots(f, b, g, path);
    ParamsOfLaidOut(f, BlockIndex(f.layout, b).value);
    forall v | v !in ps ensures Val(bound, v) == Val(e2, v) {
      BindOther(e1, ps, xs, v);
    }
    forall p | p in ps ensures Linked(g, bound, e2, p) {
      var k :| 0 <= k < |ps| && ps[k] == p;
      BindAt(e1, ps, xs, k);
    }
  }

  lemma {:induction false} MergedPart<W(!new)>(
    f: Func, b: Block, g: Func, sem: Sem<W>, path: seq<Block>, e1: Env, e2: Env, w: W)
    requires IsMerge(f, b, g) && IsPath(f, path) && path[|path| - 1] == Preds(f, b)[0].block
    requires Agree(ParamsOf(f.params, b), e1, e2)
    ensures var ps, t := ParamsOf(f.params, b), InstsOf(f.layout, b);
            var a1 := RunBlock(f, sem, b, ReadArgs(f, e1, JumpArgs(f, b), []), e1, w);
            var a2 := RunInsts(g, sem, t, e2, w);
            SameEnd(ps, a1, a2) && (a1.Goto? ==> forall q :: Related(f, b, g, q, a1.env, a2.env))
  {
    hide IsMerge, Mergeable, Preds, Uses, Root, Fresh, Edge, IsPath, Agree, Linked, AliasRel, JumpArgs, ReadArgs;
    IsMergeMergeable(f, b, g);
    MergedAliases(f, b, g);
    var ps, t := ParamsOf(f.params, b), InstsOf(f.layout, b);
    MergeableShape(f, b);
    var bound := Bind(e1, ps, ReadArgs(f, e1, JumpArgs(f, b), []));
    BoundByJump(f, b, g, path, e1, e2);
    forall p | p in ps ensures Untouched(f, t, Root(g.aliases, p)) {
      ArgsNotDefinedHere(f, b, g, path, p);
    }
    assert Safe(f, g, ps, bound, e2, t);
    RunInstsAgree(f, g, sem, ps, t, bound, e2, w);
    var a1, a2 := RunInsts(f, sem, t, bound, w), RunInsts(g, sem, t, e2, w);
    if a1.Goto? {
      forall p | p in ps ensures Linked(g, a1.env, a2.env, p) {
        LinkThrough(f, g, sem, [], [], t, bound, e2, w, p);
      }
    }
  }

  /** A block of the original; the predecessor counts together with the block it jumps to. */
  function TwoStep<W>(f: Func, sem: Sem<W>, b: Block, c: Block, args: seq<int>, env: Env, w: W): BlockEnd<W> {
    var e := RunBlock(f, sem, c, args, env, w);
    if e.Goto? && e.block == b then RunBlock(f, sem, b, e.args, e.env, e.world) else e
  }

  /**
    Running the predecessor and then the block gives the same way out and, up to the parameters that
    became aliases, the same environment as running the merged block.
   */
  lemma {:induction false} PredStep<W(!new)>(
    f: Func, b: Block, g: Func, sem: Sem<W>, path: seq<Block>, args: seq<int>, e1: Env, e2: Env, w: W)
    requires IsMerge(f, b, g) && IsPath(f, path + [Preds(f, b)[0].block]) && Related(f, b, g, path, e1, e2)
    ensures var c := Preds(f, b)[0].block;
            var a0, a1, a2 := RunBlock(f, sem, c, args, e1, w), TwoStep(f, sem, b, c, args, e1, w), RunBlock(g, sem, c, args, e2, w);
            && SameEnd(ParamsOf(f.params, b), a1, a2)
            && (a0.Goto? ==> a0.block == b)
            && (a1.Goto? ==> a0.Goto? && forall q :: Related(f, b, g, q, a1.env, a2.env))
  {
    hide IsMerge, Mergeable, Preds, Uses, Root, Fresh, Edge, IsPath, Agree, Linked, AliasRel, ReadArgs, RunInsts, InstsOf, Safe;
    IsMergeMergeable(f, b, g);
    MergedInsts(f, b, g);
    MergedAliases(f, b, g);
    InitHasNoBranch(f, b);
    PredInLayout(f, b);
    var pred := Preds(f, b)[0];
    var c, ps, init := pred.block, ParamsOf(f.params, b), Init(f, b);
    var vs, s := ParamsOf(f.params, c), InstsOf(f.layout, c);
    var b1, b2 := Bind(e1, vs, args), Bind(e2, vs, args);
    EnterAgree(ps, e1, e2, vs, args);
    EnterSafe(f, b, g, path, c, args, e1, e2);
    SafeSub(f, g, ps, b1, b2, s, init);
    assert forall p :: p in ps ==> Untouched(f, s, p);
    RunInstsAgree(f, g, sem, ps, init, b1, b2, w);
    NoBranch(f, sem, init, b1, w);
    RunInstsSplit(f, sem, init, [pred.inst], b1, w);
    RunInstsSplit(g, sem, init, InstsOf(f.layout, b), b2, w);
    var i1, i2 := RunInsts(f, sem, init, b1, w), RunInsts(g, sem, init, b2, w);
    if i1.FellOff? {
      JumpRuns(f, b, sem, i1.env, i1.world);
      MergedPart(f, b, g, sem, path + [c], i1.env, i2.env, i1.world);
    }
  }

  lemma {:induction false} PredInLayout(f: Func, b: Block)
    requires Mergeable(f, b)
    ensures BlockIndex(f.layout, Preds(f, b)[0].block).Some?
  {
    hide Dominates, Defines, Uses, Flatten, Once, AliasFree, AllArityOk, Root, PredsIn;
    var pi := PredsSound(f.insts, f.layout, b, Preds(f, b)[0]);
    BlockIndexAt(f.layout, pi);
  }

  lemma {:induction false} JumpRuns<W(!new)>(f: Func, b: Block, sem: Sem<W>, env: Env, w: W)
    requires Mergeable(f, b)
    ensures RunInsts(f, sem, [Preds(f, b)[0].inst], env, w) == Goto(b, ReadArgs(f, env, JumpArgs(f, b), []), env, w)
  {
    hide Mergeable, ReadArgs;
    MergeableShape(f, b);
    InitHasNoBranch(f, b);
  }

  // ----- Whole runs -----

  lemma {:induction false} GotoEdge<W(!new)>(f: Func, sem: Sem<W>, s: seq<Inst>, env: Env, w: W)
    requires RunInsts(f, sem, s, env, w).Goto?
    ensures exists i :: i in s && Targets(Data(f.insts, i), RunInsts(f, sem, s, env, w).block)
    decreases |s|
  {
    hide ReadAll, ReadArgs;
    var d := Data(f.insts, s[0]);
    if !(d.format.Jump? && d.dests != []) {
      var e := sem(s[0], ReadAll(f, env, d.args), w);
      if e.Next? {
        GotoEdge(f, sem, s[1..], Bind(env, ResultsOf(f.results, s[0]), e.results), e.world);
        var i :| i in s[1..] && Targets(Data(f.insts, i), RunInsts(f, sem, s, env, w).block);
        assert i in s;
      } else {
        assert d.dests[e.index].block == RunInsts(f, sem, s, env, w).block;
        assert s[0] in s;
      }
    } else {
      assert s[0] in s && d.dests[0].block == RunInsts(f, sem, s, env, w).block;
    }
  }

  /** The blocks of the original passed so far. */
  function Extended(f: Func, b: Block, path: seq<Block>, c: Block): seq<Block>
    requires |Preds(f, b)| == 1
  {
    if c == Preds(f, b)[0].block then path + [c] + [b] else path + [c]
  }

  /** One block of the merged function, from any block that a run of the original can come to. */
  lemma {:induction false} Step<W(!new)>(
    f: Func, b: Block, g: Func, sem: Sem<W>, path: seq<Block>, c: Block, args: seq<int>, e1: Env, e2: Env, w: W)
    requires IsMerge(f, b, g) && IsPath(f, path + [c]) && c != b && Related(f, b, g, path, e1, e2)
    ensures |Preds(f, b)| == 1
    ensures var a0, a1, a2 := RunBlock(f, sem, c, args, e1, w), TwoStep(f, sem, b, c, args, e1, w), RunBlock(g, sem, c, args, e2, w);
            && SameEnd(ParamsOf(f.params, b), a1, a2)
            && (a0.Goto? && a0.block != b ==> c != Preds(f, b)[0].block)
            && (a1.Goto? ==>
                  var q := Extended(f, b, path, c);
                  a1.block != b && IsPath(f, q + [a1.block]) && Related(f, b, g, q, a1.env, a2.env))
  {
    hide IsMerge, Mergeable, Preds, Related, SameEnd, RunInsts;
    IsMergeMergeable(f, b, g);
    var pb := Preds(f, b)[0].block;
    var a0, a1 := RunBlock(f, sem, c, args, e1, w), TwoStep(f, sem, b, c, args, e1, w);
    if a0.Goto? {
      GotoEdge(f, sem, InstsOf(f.layout, c), Bind(e1, ParamsOf(f.params, c), args), w);
      assert Edge(f, c, a0.block);
      PathExtend(f, path + [c], a0.block);
    }
    if c == pb {
      PredStep(f, b, g, sem, path, args, e1, e2, w);
      if a1.Goto? {
        GotoEdge(f, sem, InstsOf(f.layout, b), Bind(a0.env, ParamsOf(f.params, b), a0.args), a0.world);
        assert Edge(f, b, a1.block);
        PathExtend(f, path + [c] + [b], a1.block);
        SoleEdgeNot(f, b, b, a1.block);
      }
    } else {
      OtherBlockStep(f, b, g, sem, path, c, args, e1, e2, w);
      if a0.Goto? {
        SoleEdgeNot(f, b, c, a0.block);
      }
    }
  }

  lemma SoleEdgeNot(f: Func, b: Block, x: Block, y: Block)
    requires Mergeable(f, b) && Edge(f, x, y) && |Preds(f, b)| == 1 && x != Preds(f, b)[0].block
    ensures y != b
  {
    hide Mergeable, Preds, Edge;
    if y == b {
      MergeableBasics(f, b);
      SoleEdge(f, b, x);
    }
  }

  /** Whatever the original comes to, the merged function comes to. */
  lemma {:induction false} Forward<W(!new)>(
    f: Func, b: Block, g: Func, sem: Sem<W>, path: seq<Block>, c: Block, args: seq<int>, e1: Env, e2: Env, w: W, n: nat)
    requires IsMerge(f, b, g) && IsPath(f, path + [c]) && c != b && Related(f, b, g, path, e1, e2)
    requires Run(f, sem, c, args, e1, w, n).Some?
    ensures Run(g, sem, c, args, e2, w, n) == Run(f, sem, c, args, e1, w, n)
    decreases n
  {
    hide IsMerge, Mergeable, Preds, Related, RunBlock, IsPath, Agree, Extended;
    Step(f, b, g, sem, path, c, args, e1, e2, w);
    var a0, a1, a2 := RunBlock(f, sem, c, args, e1, w), TwoStep(f, sem, b, c, args, e1, w), RunBlock(g, sem, c, args, e2, w);
    if a1.Goto? {
      var m := if a0.block == b then n - 2 else n - 1;
      Forward(f, b, g, sem, Extended(f, b, path, c), a1.block, a1.args, a1.env, a2.env, a1.world, m);
      MoreFuel(g, sem, a2.block, a2.args, a2.env, a2.world, m, n - 1);
    }
  }

  /** Whatever the merged function comes to, the original comes to, in at most twice as many blocks. */
  lemma {:induction false} Backward<W(!new)>(
    f: Func, b: Block, g: Func, sem: Sem<W>, path: seq<Block>, c: Block, args: seq<int>, e1: Env, e2: Env, w: W, n: nat)
    requires IsMerge(f, b, g) && IsPath(f, path + [c]) && c != b && Related(f, b, g, path, e1, e2)
    requires Run(g, sem, c, args, e2, w, n).Some?
    ensures Run(f, sem, c, args, e1, w, 2 * n) == Run(g, sem, c, args, e2, w, n)
    decreases n
  {
    hide IsMerge, Mergeable, Preds, Related, RunBlock, IsPath, Agree, Extended;
    Step(f, b, g, sem, path, c, args, e1, e2, w);
    var a0, a1, a2 := RunBlock(f, sem, c, args, e1, w), TwoStep(f, sem, b, c, args, e1, w), RunBlock(g, sem, c, args, e2, w);
    if a1.Goto? {
      Backward(f, b, g, sem, Extended(f, b, path, c), a1.block, a1.args, a1.env, a2.env, a1.world, n - 1);
      MoreFuel(f, sem, a1.block, a1.args, a1.env, a1.world, 2 * (n - 1), 2 * n - 1);
      assert Run(f, sem, a1.block, a1.args, a1.env, a1.world, 2 * n - 2).Some?;
    }
  }

  lemma {:induction false} EntryRelated(f: Func, b: Block, g: Func)
    requires IsMerge(f, b, g)
    ensures f.layout != [] && g.layout != [] && g.layout[0].id == f.layout[0].id != b
    ensures IsPath(f, [] + [f.layout[0].id]) && Related(f, b, g, [], map[], map[])
  {
    hide Mergeable, Preds, MergedLayout, AliasParams;
    MergedInsts(f, b, g);
    MergeableBasics(f, b);
    EntryIsNot(f, b);
  }

  /**
    Merging a block into another, its only predecessor, which ends in a plain jump, preserves meaning: a
    run of the merged function comes to exactly the outcomes that a run of the original comes to.
   */
  lemma {:induction false} MergePreservesMeaning<W(!new)>(
    f: Func, b: Block, g: Func, sem: Sem<W>, args: seq<int>, w: W, o: Semantics.Outcome<W>)
    requires IsMerge(f, b, g)
    ensures Produces(f, sem, args, w, o) <==> Produces(g, sem, args, w, o)
  {
    hide IsMerge, Related, IsPath, Run;
    EntryRelated(f, b, g);
    var entry := f.layout[0].id;
    if Produces(f, sem, args, w, o) {
      var n: nat :| Run(f, sem, entry, args, map[], w, n) == Some(o);
      Forward(f, b, g, sem, [], entry, args, map[], map[], w, n);
    }
    if Produces(g, sem, args, w, o) {
      var n: nat :| Run(g, sem, entry, args, map[], w, n) == Some(o);
      Backward(f, b, g, sem, [], entry, args, map[], map[], w, n);
    }
  }
}
