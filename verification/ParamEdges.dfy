/**
  What replacing a block parameter does to the branches: every parameter that is left gets the argument that it got
  before, on every edge, and the signature loses the type of the parameter that went.
 */
module ParamEdges {
  import opened Options
  import opened Layouts
  import opened Clif
  import opened Mutators
  import opened Invariants
  import opened MutatorsKeep
  import opened BlockMutatorsKeep
  import opened Values
  import opened ValuesKept

  /** Along destination `j` of `i`, value `v`, a parameter of the destination, gets the argument `a`. */
  ghost predicate Gets(f: Func, i: Inst, j: nat, v: Value, a: BlockArg) {
    var dests := Data(f.insts, i).dests;
    j < |dests| && exists m: nat :: GetsAt(f, dests[j], m, v, a)
  }

  ghost predicate GetsAt(f: Func, d: BlockCall, m: nat, v: Value, a: BlockArg) {
    m < |d.args| == |ParamsOf(f.params, d.block)| && ParamsOf(f.params, d.block)[m] == v && d.args[m] == a
  }

  /** Along destination `j` of `i`, and but for parameter `gone` of `b`, what is passed for `v` is the same. */
  ghost predicate KeepsEdge(f: Func, g: Func, b: Block, gone: Value, i: Inst, j: nat, v: Value, a: BlockArg) {
    Gets(g, i, j, v, a) <==> Gets(f, i, j, v, a) && (Data(f.insts, i).dests[j].block == b ==> v != gone)
  }

  /** The same branch to the same blocks. */
  ghost predicate SameBranch(d: InstData, e: InstData) {
    e == d.(dests := e.dests) && |e.dests| == |d.dests| && forall j :: 0 <= j < |d.dests| ==> e.dests[j].block == d.dests[j].block
  }

  /** Each parameter has the type that the signature gives it. */
  ghost predicate EntryTyped(f: Func) {
    f.layout != [] ==>
      var ps := ParamsOf(f.params, f.layout[0].id);
      |f.sigParams| == |ps| && forall m :: 0 <= m < |ps| ==> f.sigParams[m] == TypeOf(f, ps[m])
  }

  /** So it is on all edges of the laid-out instructions, each of which is the branch that it was. */
  ghost predicate EdgesKept(f: Func, g: Func, b: Block, gone: Value) {
    && (forall i :: i in Flatten(f.layout) ==> SameBranch(Data(f.insts, i), Data(g.insts, i)))
    && (forall i, j: nat, v, a :: i in Flatten(f.layout) ==> KeepsEdge(f, g, b, gone, i, j, v, a))
  }

  lemma WithoutAt<T>(s: seq<T>, k: nat, m: nat)
    requires k < |s| && m < |s| - 1
    ensures Without(s, k)[m] == s[if m < k then m else m + 1]
  {
  }

  /** One edge: what is passed for every parameter that is left. */
  lemma {:induction false} EdgeKept(f: Func, g: Func, b: Block, k: nat, d: BlockCall, e: BlockCall, v: Value, a: BlockArg)
    requires k < |ParamsOf(f.params, b)| && g.params == f.params[b := Without(ParamsOf(f.params, b), k)]
    requires |d.args| == |ParamsOf(f.params, d.block)| && Once(ParamsOf(f.params, b))
    requires e == if d.block == b then BlockCall(b, Without(d.args, k)) else d
    ensures (exists m: nat :: GetsAt(g, e, m, v, a)) <==>
            (exists m: nat :: GetsAt(f, d, m, v, a)) && (d.block == b ==> v != ParamsOf(f.params, b)[k])
  {
    hide Without;
    var ps := ParamsOf(f.params, b);
    if d.block == b {
      assert ParamsOf(g.params, b) == Without(ps, k);
      if m: nat :| GetsAt(g, e, m, v, a) {
        WithoutAt(ps, k, m);
        WithoutAt(d.args, k, m);
        var o := if m < k then m else m + 1;
        assert GetsAt(f, d, o, v, a);
        if v == ps[k] {
          TwiceIn(ps, k, o);
        }
      }
      if m: nat :| GetsAt(f, d, m, v, a) && v != ps[k] {
        var o := if m < k then m else m - 1;
        WithoutAt(ps, k, o);
        WithoutAt(d.args, k, o);
        assert GetsAt(g, e, o, v, a);
      }
    } else {
      assert ParamsOf(g.params, d.block) == ParamsOf(f.params, d.block);
      if m: nat :| GetsAt(f, d, m, v, a) {
        assert GetsAt(g, e, m, v, a);
      }
      if m: nat :| GetsAt(g, e, m, v, a) {
        assert GetsAt(f, d, m, v, a);
      }
    }
  }

  lemma TwiceIn(s: seq<Value>, j: nat, k: nat)
    requires Once(s) && j < |s| && k < |s| && s[j] == s[k]
    ensures j == k
  {
    if j < k {
      CountTwice(s, j, k);
    } else if k < j {
      CountTwice(s, k, j);
    }
  }

  /** What happens to the data of a laid-out instruction. */
  lemma {:induction false} DroppedData(f: Func, b: Block, k: nat, i: Inst)
    requires TerminatorsOk(f) && AllArityOk(f) && i in Flatten(f.layout) && k < |ParamsOf(f.params, b)|
    ensures var d, e := Data(f.insts, i), Data(DropArgs(f, Preds(f, b), b, k).insts, i);
            && SameBranch(d, e)
            && forall j :: 0 <= j < |d.dests| ==>
                 && |d.dests[j].args| == |ParamsOf(f.params, d.dests[j].block)|
                 && e.dests[j] == if d.dests[j].block == b then BlockCall(b, Without(d.dests[j].args, k)) else d.dests[j]
  {
    hide Flatten, PredsIn, Without;
    var d := Data(f.insts, i);
    assert ArityOk(f.params, d);
    if Targets(d, b) {
      BranchIsPred(f, b, i);
      assert i in f.insts;
    }
  }

  lemma {:induction false} ParamEdgesAt(f: Func, c: nat, k: nat, i: Inst, j: nat, v: Value, a: BlockArg)
    requires Inv(f) && c < |f.layout| && k < |ParamsOf(f.params, f.layout[c].id)| && i in Flatten(f.layout) && f.layout[c].insts != []
    ensures var b := f.layout[c].id;
            var g := ParamByConst(f, b, k, f.layout[c].insts[0]);
            && SameBranch(Data(f.insts, i), Data(g.insts, i))
            && KeepsEdge(f, g, b, ParamsOf(f.params, b)[k], i, j, v, a)
  {
    hide Flatten, PredsIn, DropArgs, InsertConst, ParamByConst, Once, Fresh, TablesGrow, AllArityOk, TerminatorsOk, Without, AliasFree, ParamsIn;
    var b, ps := f.layout[c].id, ParamsOf(f.params, f.layout[c].id);
    ParamByConstAt(f, c, k);
    var h, g := InsertConst(f, ps[k], f.layout[c].insts[0]), ParamByConst(f, b, k, f.layout[c].insts[0]);
    InsertedHas(f, h, c, 0, i);
    ParamsOfOnce(f, c);
    DroppedData(h, b, k, i);
    var d, e := Data(h.insts, i), Data(g.insts, i);
    if j < |d.dests| {
      EdgeKept(f, g, b, k, d.dests[j], e.dests[j], v, a);
    }
  }

  lemma InsertedHas(f: Func, h: Func, b: nat, k: nat, i: Inst)
    requires Inv(f) && Inserted(f, h, b, k) && i in Flatten(f.layout)
    ensures i in Flatten(h.layout) && Data(h.insts, i) == Data(f.insts, i)
  {
    hide Flatten, Once, AllArityOk, TerminatorsOk, AliasFree, ParamsIn;
    OldStays(f, h, i);
    SpliceFlatten(f.layout, b, k, Fresh(f.nextInst, h.nextInst));
    assert i in multiset(Flatten(f.layout));
    assert i in multiset(Flatten(h.layout));
  }

  lemma ParamsOfOnce(f: Func, c: nat)
    requires Inv(f) && c < |f.layout|
    ensures Once(ParamsOf(f.params, f.layout[c].id))
  {
    hide Flatten, Once, AllArityOk, TerminatorsOk, AliasFree;
    ParamsOfLaidOut(f, c);
  }

  lemma {:induction false} EntryStaysTyped(f: Func, g: Func, b: Block, k: nat)
    requires EntryTyped(f) && f.layout != [] && g.layout != [] && g.layout[0].id == f.layout[0].id && ValuesGrow(f, g)
    requires k < |ParamsOf(f.params, b)| && g.params == f.params[b := Without(ParamsOf(f.params, b), k)]
    requires forall m :: 0 <= m < |ParamsOf(f.params, f.layout[0].id)| ==> ParamsOf(f.params, f.layout[0].id)[m] < f.nextValue
    requires b == f.layout[0].id ==> k < |f.sigParams|
    requires g.sigParams == if b == f.layout[0].id then Without(f.sigParams, k) else f.sigParams
    ensures EntryTyped(g)
  {
    hide Without;
    var entry := f.layout[0].id;
    var ps, qs := ParamsOf(f.params, entry), ParamsOf(g.params, entry);
    forall m | 0 <= m < |qs| ensures |g.sigParams| == |qs| && g.sigParams[m] == TypeOf(g, qs[m]) {
      if b == entry {
        WithoutAt(ps, k, m);
        WithoutAt(f.sigParams, k, m);
      }
    }
  }

  /**
    Replacing a parameter by a constant: all laid-out instructions stay the branches they are, and on every edge
    every parameter but the one that went gets exactly what it got before.  The signature is that of the entry block
    afterwards if it was before and values are defined once.
   */
  lemma {:induction false} EdgesAfter(block: Block, remaining: nat, f: Func) returns (b: Block, k: nat)
    requires Inv(f) && CursorOk(ReplaceBlockParamWithConst(block, remaining), f)
    ensures var s := MutateReplaceParam(block, remaining, f);
            s.outcome.Mutated? ==>
              && k < |ParamsOf(f.params, b)| && s.next == ReplaceBlockParamWithConst(b, k)
              && var g := s.outcome.func;
                 && (Ssa(f) && EntryTyped(f) ==> EntryTyped(g)) && EdgesKept(f, g, b, ParamsOf(f.params, b)[k])
  {
    hide Inv, Flatten, SeekParam, ParamByConst, FirstInst, Ssa, Defs, Once, Gets, SameBranch, EntryTyped, ZeroesFor, KeepsEdge;
    b, k := block, 0;
    SeekParamAt(f, block, remaining);
    match SeekParam(f, block, remaining)
    case None =>
    case Some((b', r)) =>
      var c :| 0 <= c < |f.layout| && f.layout[c].id == b';
      b, k := b', r - 1;
      ReplaceParamAt(f, c, r);
      var g := ParamByConst(f, b, k, f.layout[c].insts[0]);
      if Ssa(f) {
        EntryAfter(f, c, k);
      }
      var out := MutateReplaceParam(block, remaining, f).outcome;
      if out.Mutated? {
        var h := out.func;
        assert h == g.(sigParams := h.sigParams) by {
          assert g == g.(sigParams := g.sigParams);
        }
        forall i, j: nat, v, a | i in Flatten(f.layout)
          ensures SameBranch(Data(f.insts, i), Data(h.insts, i)) && KeepsEdge(f, h, b, ParamsOf(f.params, b)[k], i, j, v, a)
        {
          ParamEdgesAt(f, c, k, i, j, v, a);
          SignatureIsNoEdge(f, g, b, ParamsOf(f.params, b)[k], h.sigParams, i, j, v, a);
        }
        forall i | i in Flatten(f.layout) ensures SameBranch(Data(f.insts, i), Data(h.insts, i)) {
          ParamEdgesAt(f, c, k, i, 0, 0, TryCallRet(0));
        }
      }
  }

  lemma SignatureIsNoEdge(f: Func, g: Func, b: Block, gone: Value, s: seq<Type>, i: Inst, j: nat, v: Value, a: BlockArg)
    requires KeepsEdge(f, g, b, gone, i, j, v, a)
    ensures KeepsEdge(f, g.(sigParams := s), b, gone, i, j, v, a)
  {
    var h := g.(sigParams := s);
    if Gets(g, i, j, v, a) {
      var m: nat :| GetsAt(g, Data(g.insts, i).dests[j], m, v, a);
      assert GetsAt(h, Data(h.insts, i).dests[j], m, v, a);
    }
    if Gets(h, i, j, v, a) {
      var m: nat :| GetsAt(h, Data(h.insts, i).dests[j], m, v, a);
      assert GetsAt(g, Data(g.insts, i).dests[j], m, v, a);
    }
  }

  lemma {:induction false} EntryAfter(f: Func, c: nat, k: nat)
    requires Inv(f) && Ssa(f) && c < |f.layout| && k < |ParamsOf(f.params, f.layout[c].id)| && f.layout[c].insts != []
    ensures var b := f.layout[c].id;
            var g := ParamByConst(f, b, k, f.layout[c].insts[0]);
            && (EntryBlock(g.layout) == Some(b) <==> c == 0)
            && g.sigParams == f.sigParams
            && (EntryTyped(f) && c > 0 ==> EntryTyped(g))
            && (EntryTyped(f) && c == 0 ==> k < |f.sigParams| && EntryTyped(g.(sigParams := Without(f.sigParams, k))))
  {
    hide Flatten, ParamByConst, Once, Defs, ZeroesFor, ParamsIn, AllArityOk, TerminatorsOk, AliasFree, Without;
    var b := f.layout[c].id;
    var g := ParamByConst(f, b, k, f.layout[c].insts[0]);
    InvLayout(f);
    ParamNumbered(f, c, k);
    var lows := ParamInPlace(f, c, k);
    forall m | 0 <= m < |ParamsOf(f.params, f.layout[0].id)| ensures ParamsOf(f.params, f.layout[0].id)[m] < f.nextValue {
      ParamNumbered(f, 0, m);
    }
    if EntryTyped(f) {
      if c == 0 {
        SameTypes(f, f, g, g.(sigParams := Without(f.sigParams, k)));
        EntryStaysTyped(f, g.(sigParams := Without(f.sigParams, k)), b, k);
      } else {
        EntryStaysTyped(f, g, b, k);
      }
    }
  }
}
