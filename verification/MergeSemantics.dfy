/**
  Merging a block into its only predecessor does not change what a function does.
 */
module MergeSemantics {
  import opened Layouts
  import opened Clif
  import opened Mutators
  import opened Invariants
  import opened MutatorsKeep
  import opened BlockMutatorsKeep
  import opened Semantics

  // ----- Two environments that differ in the parameters of the merged block -----

  ghost predicate Agree(ps: seq<Value>, e1: Env, e2: Env) {
    forall v :: v !in ps ==> Val(e1, v) == Val(e2, v)
  }

  predicate UsesIn(dests: seq<BlockCall>, v: Value) {
    exists k, j :: 0 <= k < |dests| && 0 <= j < |dests[k].args| && dests[k].args[j] == ValueArg(v)
  }

  /** `v` is an operand of the instruction or an argument on one of its branches. */
  predicate Uses(d: InstData, v: Value) {
    v in d.args || UsesIn(d.dests, v)
  }

  /** In `g` the parameters `ps` are aliases; every other value stands for itself as before. */
  ghost predicate AliasRel(f: Func, g: Func, ps: seq<Value>) {
    forall v :: Root(g.aliases, v) ==
                if Root(f.aliases, v) in ps then Root(g.aliases, Root(f.aliases, v)) else Root(f.aliases, v)
  }

  /** The parameter's value in the one is its alias's value in the other. */
  ghost predicate Linked(g: Func, e1: Env, e2: Env, p: Value) {
    Val(e1, p) == Val(e2, Root(g.aliases, p))
  }

  /** Each value that an instruction reads has the same value on both sides. */
  ghost predicate ReadsLinked(f: Func, g: Func, ps: seq<Value>, e1: Env, e2: Env, d: InstData) {
    forall v :: Uses(d, v) && Root(f.aliases, v) in ps ==> Linked(g, e1, e2, Root(f.aliases, v))
  }

  lemma ReadAgrees(f: Func, g: Func, ps: seq<Value>, e1: Env, e2: Env, d: InstData, v: Value)
    requires Agree(ps, e1, e2) && AliasRel(f, g, ps) && ReadsLinked(f, g, ps, e1, e2, d) && Uses(d, v)
    ensures Read(f, e1, v) == Read(g, e2, v)
  {
  }

  lemma {:induction false} ReadAllAgrees(f: Func, g: Func, ps: seq<Value>, e1: Env, e2: Env, d: InstData)
    requires Agree(ps, e1, e2) && AliasRel(f, g, ps) && ReadsLinked(f, g, ps, e1, e2, d)
    ensures ReadAll(f, e1, d.args) == ReadAll(g, e2, d.args)
    ensures forall k, extras :: 0 <= k < |d.dests| ==>
              ReadArgs(f, e1, d.dests[k].args, extras) == ReadArgs(g, e2, d.dests[k].args, extras)
  {
    hide Root;
    forall k | 0 <= k < |d.args| ensures Read(f, e1, d.args[k]) == Read(g, e2, d.args[k]) {
      ReadAgrees(f, g, ps, e1, e2, d, d.args[k]);
    }
    forall k, extras | 0 <= k < |d.dests|
      ensures ReadArgs(f, e1, d.dests[k].args, extras) == ReadArgs(g, e2, d.dests[k].args, extras)
    {
      forall j | 0 <= j < |d.dests[k].args|
        ensures ReadArg(f, e1, d.dests[k].args[j], extras) == ReadArg(g, e2, d.dests[k].args[j], extras)
      {
        if d.dests[k].args[j].ValueArg? {
          var v := d.dests[k].args[j].value;
          assert UsesIn(d.dests, v);
          ReadAgrees(f, g, ps, e1, e2, d, v);
        }
      }
    }
  }

  /** Not the result of an instruction in `s`. */
  ghost predicate Untouched(f: Func, s: seq<Inst>, v: Value) {
    forall i :: i in s ==> v !in ResultsOf(f.results, i)
  }

  /** The same way out with the same values, and the environments still agree. */
  ghost predicate SameEnd<W(!new)>(ps: seq<Value>, a: BlockEnd<W>, b: BlockEnd<W>) {
    match a
    case Goto(blk, args, env, w) => b.Goto? && b.block == blk && b.args == args && b.world == w && Agree(ps, env, b.env)
    case FellOff(env, w) => b.FellOff? && b.world == w && Agree(ps, env, b.env)
    case Halt(_, _) => b == a
    case NoSuchBranch(_) => b == a
  }

  ghost predicate KeepsVal<W(!new)>(a: BlockEnd<W>, env: Env, v: Value) {
    a.Goto? || a.FellOff? ==> Val(a.env, v) == Val(env, v)
  }

  /** What an instruction sequence may do for the two sides to stay together. */
  ghost predicate Safe(f: Func, g: Func, ps: seq<Value>, e1: Env, e2: Env, s: seq<Inst>) {
    forall i :: i in s ==>
      forall v :: Uses(Data(f.insts, i), v) && Root(f.aliases, v) in ps ==>
        Linked(g, e1, e2, Root(f.aliases, v)) && Untouched(f, s, Root(g.aliases, Root(f.aliases, v)))
  }

  lemma {:induction false} RunInstsKeeps<W(!new)>(f: Func, sem: Sem<W>, s: seq<Inst>, env: Env, w: W, v: Value)
    requires Untouched(f, s, v)
    ensures KeepsVal(RunInsts(f, sem, s, env, w), env, v)
    decreases |s|
  {
    if s != [] {
      var d := Data(f.insts, s[0]);
      if !(d.format.Jump? && d.dests != []) {
        var e := sem(s[0], ReadAll(f, env, d.args), w);
        if e.Next? {
          BindOther(env, ResultsOf(f.results, s[0]), e.results, v);
          RunInstsKeeps(f, sem, s[1..], Bind(env, ResultsOf(f.results, s[0]), e.results), e.world, v);
        }
      }
    }
  }

  lemma {:induction false} SafeAfter(f: Func, g: Func, ps: seq<Value>, e1: Env, e2: Env, s: seq<Inst>, xs: seq<int>)
    requires s != [] && Safe(f, g, ps, e1, e2, s) && Agree(ps, e1, e2)
    requires forall p :: p in ps ==> Untouched(f, s, p)
    ensures var rs := ResultsOf(f.results, s[0]);
            Safe(f, g, ps, Bind(e1, rs, xs), Bind(e2, rs, xs), s[1..]) && Agree(ps, Bind(e1, rs, xs), Bind(e2, rs, xs))
  {
    hide Root;
    var rs := ResultsOf(f.results, s[0]);
    var b1, b2 := Bind(e1, rs, xs), Bind(e2, rs, xs);
    forall v | v !in ps ensures Val(b1, v) == Val(b2, v) {
      BindBoth(e1, e2, rs, xs, v);
    }
    forall i, v | i in s[1..] && Uses(Data(f.insts, i), v) && Root(f.aliases, v) in ps
      ensures Linked(g, b1, b2, Root(f.aliases, v)) && Untouched(f, s[1..], Root(g.aliases, Root(f.aliases, v)))
    {
      var p := Root(f.aliases, v);
      assert i in s;
      BindOther(e1, rs, xs, p);
      BindOther(e2, rs, xs, Root(g.aliases, p));
    }
  }

  lemma {:induction false} RunInstsAgree<W(!new)>(
    f: Func, g: Func, sem: Sem<W>, ps: seq<Value>, s: seq<Inst>, e1: Env, e2: Env, w: W)
    requires g.insts == f.insts && g.results == f.results && AliasRel(f, g, ps)
    requires Agree(ps, e1, e2) && Safe(f, g, ps, e1, e2, s)
    requires forall p :: p in ps ==> Untouched(f, s, p)
    ensures SameEnd(ps, RunInsts(f, sem, s, e1, w), RunInsts(g, sem, s, e2, w))
    decreases |s|
  {
    hide Root, Agree, AliasRel, ReadArgs, ReadAll, Uses, Linked;
    if s != [] {
      var d := Data(f.insts, s[0]);
      assert s[0] in s;
      ReadAllAgrees(f, g, ps, e1, e2, d);
      if !(d.format.Jump? && d.dests != []) {
        var e := sem(s[0], ReadAll(f, e1, d.args), w);
        if e.Next? {
          SafeAfter(f, g, ps, e1, e2, s, e.results);
          var rs := ResultsOf(f.results, s[0]);
          assert forall p :: p in ps ==> Untouched(f, s[1..], p);
          RunInstsAgree(f, g, sem, ps, s[1..], Bind(e1, rs, e.results), Bind(e2, rs, e.results), e.world);
        }
      }
    }
  }

  lemma {:induction false} RunInstsSplit<W(!new)>(f: Func, sem: Sem<W>, a: seq<Inst>, b: seq<Inst>, env: Env, w: W)
    ensures RunInsts(f, sem, a + b, env, w) ==
            match RunInsts(f, sem, a, env, w)
            case FellOff(env', w') => RunInsts(f, sem, b, env', w')
            case e => e
    decreases |a|
  {
    hide Root, ReadArgs, ReadAll;
    if a == [] {
      assert a + b == b;
    } else {
      assert (a + b)[1..] == a[1..] + b;
      var d := Data(f.insts, a[0]);
      var e := sem(a[0], ReadAll(f, env, d.args), w);
      if e.Next? {
        RunInstsSplit(f, sem, a[1..], b, Bind(env, ResultsOf(f.results, a[0]), e.results), e.world);
      }
    }
  }

  // ----- Paths and dominance -----

  ghost predicate Edge(f: Func, x: Block, y: Block) {
    exists i :: i in InstsOf(f.layout, x) && Targets(Data(f.insts, i), y)
  }

  /** A path through the control-flow graph from the entry block. */
  ghost predicate IsPath(f: Func, path: seq<Block>) {
    && path != [] && f.layout != [] && path[0] == f.layout[0].id
    && forall k :: 0 <= k < |path| - 1 ==> Edge(f, path[k], path[k + 1])
  }

  ghost predicate Dominates(f: Func, d: Block, c: Block) {
    forall path :: IsPath(f, path) && path[|path| - 1] == c ==> d in path
  }

  /** `c` gives `v` its value, as a parameter or as the result of an instruction. */
  ghost predicate Defines(f: Func, c: Block, v: Value) {
    v in ParamsOf(f.params, c) || !Untouched(f, InstsOf(f.layout, c), v)
  }

  /**
    Block `b` has one predecessor, another block that ends in a plain jump; its parameters are defined
    nowhere else and used only where `b` dominates, and whatever defines an argument of the jump
    dominates the predecessor.
   */
  ghost predicate Mergeable(f: Func, b: Block) {
    MergeableBranch(f, b) && Data(f.insts, Preds(f, b)[0].inst).format.Jump?
  }

  /** The same for any branch with one destination. */
  ghost predicate MergeableBranch(f: Func, b: Block) {
    && Inv(f) && |Preds(f, b)| == 1 && BlockIndex(f.layout, b).Some? && BlockIndex(f.layout, b).value > 0
    && var pred, ps := Preds(f, b)[0], ParamsOf(f.params, b);
       var d := Data(f.insts, pred.inst);
       && pred.block != b && |d.dests| == 1
       && (forall a :: a in d.dests[0].args ==> a.ValueArg?)
       && (forall c, p :: p in ps ==> Untouched(f, InstsOf(f.layout, c), p))
       && (forall c, i, v :: i in InstsOf(f.layout, c) && Uses(Data(f.insts, i), v) && Root(f.aliases, v) in ps ==>
             Dominates(f, b, c))
       && (forall c, a :: a in d.dests[0].args && Defines(f, c, Root(f.aliases, a.value)) ==> Dominates(f, c, pred.block))
  }

  lemma {:induction false} InstsInFlatten(l: Layout, c: Block, i: Inst)
    requires i in InstsOf(l, c)
    ensures i in Flatten(l)
  {
    var k := BlockIndex(l, c).value;
    FlattenSplit(l, k);
  }

  lemma {:induction false} SoleEdge(f: Func, b: Block, x: Block)
    requires Inv(f) && HasSolePred(f, b) && Edge(f, x, b)
    ensures x == Preds(f, b)[0].block
  {
    hide Flatten, PredsIn, AliasFree, AllArityOk, Once;
    var pred := Preds(f, b)[0];
    var i :| i in InstsOf(f.layout, x) && Targets(Data(f.insts, i), b);
    InstsInFlatten(f.layout, x, i);
    SolePred(f, b, i);
    var c := PredsSound(f.insts, f.layout, b, pred);
    var n := |f.layout[c].insts| - 1;
    LocateAt(f.layout, c, n);
    var e := BlockIndex(f.layout, x).value;
    var k :| 0 <= k < |f.layout[e].insts| && f.layout[e].insts[k] == i;
    LocateAt(f.layout, e, k);
  }

  lemma {:induction false} PathPrefix(f: Func, path: seq<Block>, n: nat)
    requires IsPath(f, path) && 0 < n <= |path|
    ensures IsPath(f, path[..n])
  {
  }

  lemma {:induction false} PathExtend(f: Func, path: seq<Block>, c: Block)
    requires IsPath(f, path) && Edge(f, path[|path| - 1], c)
    ensures IsPath(f, path + [c])
  {
  }

  lemma {:induction false} FirstIndex(path: seq<Block>, b: Block) returns (j: nat)
    requires b in path
    ensures j < |path| && path[j] == b && b !in path[..j]
  {
    if path[0] == b {
      j := 0;
    } else {
      j := FirstIndex(path[1..], b);
      j := j + 1;
      assert path[..j] == [path[0]] + path[1..][..j - 1];
    }
  }

  lemma {:induction false} LastIndex(path: seq<Block>, b: Block) returns (j: nat)
    requires b in path
    ensures j < |path| && path[j] == b && forall m :: j < m < |path| ==> path[m] != b
  {
    var n := |path| - 1;
    if path[n] == b {
      j := n;
    } else {
      assert path == path[..n] + [path[n]];
      j := LastIndex(path[..n], b);
    }
  }

  /** The first time a path comes to `b`, it comes from the predecessor, without having been in `b`. */
  lemma {:induction false} FirstVisit(f: Func, b: Block, path: seq<Block>) returns (j: nat)
    requires Inv(f) && HasSolePred(f, b) && IsPath(f, path) && b in path
    ensures 0 < j < |path| && b !in path[..j] && path[j - 1] == Preds(f, b)[0].block && IsPath(f, path[..j])
  {
    hide Inv, Preds, Edge;
    j := FirstIndex(path, b);
    EntryIsNot(f, b);
    SoleEdge(f, b, path[j - 1]);
    PathPrefix(f, path, j);
  }

  lemma EntryIsNot(f: Func, b: Block)
    requires Inv(f) && HasSolePred(f, b)
    ensures f.layout != [] && f.layout[0].id != b
  {
    BlockIndexAt(f.layout, 0);
  }

  lemma MergeableBasics(f: Func, b: Block)
    requires Mergeable(f, b)
    ensures Inv(f) && HasSolePred(f, b)
  {
  }

  /** If the predecessor can be reached, it can be reached without going through `b`. */
  lemma {:induction false} PathToPred(f: Func, b: Block, path: seq<Block>) returns (q: seq<Block>)
    requires Inv(f) && HasSolePred(f, b) && IsPath(f, path) && path[|path| - 1] == Preds(f, b)[0].block
    ensures IsPath(f, q) && q[|q| - 1] == Preds(f, b)[0].block && b !in q
  {
    hide Inv, Preds, IsPath;
    q := path;
    if b in path {
      var j := FirstVisit(f, b, path);
      q := path[..j];
    }
  }

  /** A reachable predecessor does not use the parameters. */
  lemma {:induction false} PredUsesNone(f: Func, b: Block, path: seq<Block>, i: Inst, v: Value)
    requires Mergeable(f, b) && IsPath(f, path) && path[|path| - 1] == Preds(f, b)[0].block
    requires i in InstsOf(f.layout, Preds(f, b)[0].block) && Uses(Data(f.insts, i), v)
    ensures Root(f.aliases, v) !in ParamsOf(f.params, b)
  {
    var q := PathToPred(f, b, path);
    assert !Dominates(f, b, Preds(f, b)[0].block);
  }

  // ----- The aliases of the merged function -----

  /** The aliases after a merge, when no argument is itself one of the parameters. */
  lemma {:induction false} AliasParamsRoots(
    aliases: map<Value, Value>, params: seq<Value>, args: seq<BlockArg>, v: Value)
    requires |params| == |args| && AliasFree(aliases) && Once(params)
    requires forall p :: p in params ==> p !in aliases
    requires forall k :: 0 <= k < |args| ==> args[k].ValueArg? && Root(aliases, args[k].value) !in params
    requires AliasParams(aliases, params, args).Ok?
    ensures var more := AliasParams(aliases, params, args).value;
            var r := Root(aliases, v);
            && (r !in params ==> Root(more, v) == r)
            && (forall k :: 0 <= k < |params| && r == params[k] ==> Root(more, v) == Root(aliases, args[k].value))
    decreases |params|
  {
    if params != [] {
      var p, rest := params[0], params[1..];
      var a := Root(aliases, args[0].value);
      assert params == [p] + rest;
      OnceSub(rest, params);
      NotTwice(params, rest, p);
      assert p != args[0].value && p != a && a !in aliases;
      AliasFreeUpdate(aliases, p, a);
      RootUpdate(aliases, p, a, v);
      forall k | 0 <= k < |rest|
        ensures Root(aliases[p := a], args[1..][k].value) == Root(aliases, args[k + 1].value)
      {
        RootUpdate(aliases, p, a, args[k + 1].value);
      }
      AliasParamsRoots(aliases[p := a], rest, args[1..], v);
    }
  }

  /** Every value that does not resolve to a parameter resolves as before. */
  lemma {:induction false} AliasParamsOthers(
    aliases: map<Value, Value>, params: seq<Value>, args: seq<BlockArg>, v: Value)
    requires |params| == |args| && AliasFree(aliases) && Once(params)
    requires forall p :: p in params ==> p !in aliases
    requires AliasParams(aliases, params, args).Ok?
    ensures var more := AliasParams(aliases, params, args).value;
            && (Root(aliases, v) !in params ==> Root(more, v) == Root(aliases, v))
            && Root(more, v) == Root(more, Root(aliases, v))
    decreases |params|
  {
    if params != [] {
      var p, rest := params[0], params[1..];
      assert params == [p] + rest;
      OnceSub(rest, params);
      NotTwice(params, rest, p);
      if args[0].ValueArg? && p != args[0].value {
        var a := Root(aliases, args[0].value);
        var next := aliases[p := a];
        AliasFreeUpdate(aliases, p, a);
        RootUpdate(aliases, p, a, v);
        AliasParamsOthers(next, rest, args[1..], v);
        AliasParamsOthers(next, rest, args[1..], Root(aliases, v));
        RootUpdate(aliases, p, a, Root(aliases, v));
      } else {
        AliasParamsOthers(aliases, rest, args[1..], v);
      }
    }
  }
}
