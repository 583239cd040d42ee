/**
  The mutators that change the control-flow graph: replacing a block parameter, and merging a block into
  its only predecessor.  Both have to keep the number of arguments on every edge in step with the parameters.
 */
module BlockMutatorsKeep {
  import opened Options
  import opened Layouts
  import opened Clif
  import opened Mutators
  import opened Invariants
  import opened MutatorsKeep

  // ----- Predecessors -----

  /** Every block ending in a branch to `b` is listed. */
  lemma {:induction false} PredsComplete(insts: map<Inst, InstData>, l: Layout, b: Block, c: nat)
    requires c < |l| && l[c].insts != [] && Targets(Data(insts, l[c].insts[|l[c].insts| - 1]), b)
    ensures Pred(l[c].id, l[c].insts[|l[c].insts| - 1]) in PredsIn(insts, l, b)
  {
    hide Flatten;
    if c > 0 {
      assert l[1..][c - 1] == l[c];
      PredsComplete(insts, l[1..], b, c - 1);
    }
  }

  /** Every entry is the last instruction of its block. */
  lemma {:induction false} PredsSound(insts: map<Inst, InstData>, l: Layout, b: Block, p: Pred) returns (c: nat)
    requires p in PredsIn(insts, l, b)
    ensures c < |l| && l[c].insts != [] && p == Pred(l[c].id, l[c].insts[|l[c].insts| - 1])
    ensures Targets(Data(insts, p.inst), b)
  {
    if p in PredsIn(insts, l[1..], b) {
      c := PredsSound(insts, l[1..], b, p);
      c := c + 1;
    } else {
      c := 0;
    }
  }

  /** Since only last instructions branch, whatever branches to `b` is a listed predecessor. */
  lemma {:induction false} BranchIsPred(f: Func, b: Block, i: Inst)
    requires TerminatorsOk(f) && i in Flatten(f.layout) && Targets(Data(f.insts, i), b)
    ensures exists p :: p in Preds(f, b) && p.inst == i
  {
    var c, k := FlattenIn(f.layout, i);
    assert BranchesLast(f.insts, f.layout[c].insts);
    PredsComplete(f.insts, f.layout, b, c);
    assert Pred(f.layout[c].id, i) in Preds(f, b);
  }

  // ----- Replacing a block parameter -----

  lemma InsertConstIgnoresParams(f: Func, params: map<Block, seq<Value>>, v: Value, before: Inst)
    ensures InsertConst(f.(params := params), v, before) == InsertConst(f, v, before).(params := params)
  {
    hide InsertInst;
    assert TypeOf(f.(params := params), v) == TypeOf(f, v);
  }

  lemma {:induction false} ParamsWithoutOne(params: map<Block, seq<Value>>, l: Layout, c: nat, k: nat)
    requires DistinctIds(l) && c < |l| && k < |ParamsOf(params, l[c].id)|
    ensures var ps := ParamsOf(params, l[c].id);
            multiset(ParamsIn(params, l)) == multiset(ParamsIn(params[l[c].id := Without(ps, k)], l)) + multiset{ps[k]}
  {
    var b, ps := l[c].id, ParamsOf(params, l[c].id);
    var fewer := params[b := Without(ps, k)];
    ParamsSplit(params, l, c);
    ParamsSplit(fewer, l, c);
    ParamsElsewhere(params, l[..c], b, Without(ps, k));
    ParamsElsewhere(params, l[c + 1..], b, Without(ps, k));
  }

  lemma {:induction false} DropArgsArity(f: Func, b: Block, k: nat, i: Inst)
    requires TerminatorsOk(f) && AllArityOk(f) && i in Flatten(f.layout) && k < |ParamsOf(f.params, b)|
    ensures var params := f.params[b := Without(ParamsOf(f.params, b), k)];
            ArityOk(params, Data(DropArgs(f, Preds(f, b), b, k).insts, i))
  {
    var g := DropArgs(f, Preds(f, b), b, k);
    var d, e := Data(f.insts, i), Data(g.insts, i);
    assert ArityOk(f.params, d);
    if Targets(d, b) {
      BranchIsPred(f, b, i);
      assert i in f.insts;
      assert e == DropArg(d, b, k);
    } else {
      assert forall j :: 0 <= j < |d.dests| ==> d.dests[j].block != b;
      assert e.dests == d.dests;
    }
  }

  lemma {:induction false} DropArgsKeepsInv(f: Func, c: nat, k: nat)
    requires Inv(f) && c < |f.layout| && k < |ParamsOf(f.params, f.layout[c].id)|
    ensures var b := f.layout[c].id;
            var g := DropArgs(f, Preds(f, b), b, k).(params := f.params[b := Without(ParamsOf(f.params, b), k)]);
            Inv(g) && multiset(AllParams(f)) == multiset(AllParams(g)) + multiset{ParamsOf(f.params, b)[k]}
  {
    var b := f.layout[c].id;
    var params := f.params[b := Without(ParamsOf(f.params, b), k)];
    var g := DropArgs(f, Preds(f, b), b, k).(params := params);
    forall i | i in Flatten(g.layout) ensures ArityOk(params, Data(g.insts, i)) {
      DropArgsArity(f, b, k, i);
    }
    DropArgsShape(f, Preds(f, b), b, k);
    ParamsWithoutOne(f.params, f.layout, c, k);
    OnceSub(AllParams(g), AllParams(f));
    forall v | v in AllParams(g) ensures v in AllParams(f) {
      SubIn(AllParams(g), AllParams(f), v);
    }
  }

  lemma {:induction false} DropArgsShape(f: Func, preds: seq<Pred>, b: Block, k: nat)
    ensures var g := DropArgs(f, preds, b, k);
            && (TerminatorsOk(f) ==> TerminatorsOk(g))
            && ((forall i :: i in f.insts ==> WfData(f.insts[i])) ==> forall i :: i in g.insts ==> WfData(g.insts[i]))
  {
    var g := DropArgs(f, preds, b, k);
    assert forall i :: |Data(g.insts, i).dests| == |Data(f.insts, i).dests|;
    if TerminatorsOk(f) {
      forall c | 0 <= c < |g.layout| ensures BranchesLast(g.insts, g.layout[c].insts) {
        assert BranchesLast(f.insts, f.layout[c].insts);
      }
    }
  }

  lemma {:induction false} ParamByConstAt(f: Func, c: nat, k: nat)
    requires Inv(f) && c < |f.layout| && k < |ParamsOf(f.params, f.layout[c].id)|
    ensures f.layout[c].insts != []
    ensures var b := f.layout[c].id;
            var h := InsertConst(f, ParamsOf(f.params, b)[k], f.layout[c].insts[0]);
            var g := ParamByConst(f, b, k, f.layout[c].insts[0]);
            && Inserted(f, h, c, 0) && h.nextInst > f.nextInst && Inv(h)
            && g == DropArgs(h, Preds(h, b), b, k).(params := f.params[b := Without(ParamsOf(f.params, b), k)])
            && Inv(g) && multiset(AllParams(f)) == multiset(AllParams(g)) + multiset{ParamsOf(f.params, b)[k]}
  {
    hide Inv, TablesGrow, InsertConst, Once, Flatten;
    InvLayout(f);
    var b, first := f.layout[c].id, f.layout[c].insts[0];
    var v := ParamsOf(f.params, b)[k];
    var params := f.params[b := Without(ParamsOf(f.params, b), k)];
    var h := InsertConst(f, v, first);
    InsertConstInserted(f, v, c, 0);
    InsertedKeepsInv(f, h, c, 0);
    InsertConstIgnoresParams(f, params, v, first);
    DropArgsKeepsInv(h, c, k);
    ParamsSameIds(f.params, h.layout, f.layout);
  }

  lemma {:induction false} SeekParamAt(f: Func, block: Block, remaining: nat)
    requires Inv(f) && CursorOk(ReplaceBlockParamWithConst(block, remaining), f)
    ensures var r := SeekParam(f, block, remaining);
            r.Some? ==> 0 < r.value.1 && CursorOk(ReplaceBlockParamWithConst(r.value.0, r.value.1), f)
    decreases match BlockIndex(f.layout, block) case None => 0 case Some(k) => |f.layout| - k
  {
    if remaining == 0 && NextBlock(f.layout, block).Some? {
      var k := BlockIndex(f.layout, block).value;
      BlockIndexAt(f.layout, k + 1);
      var b := f.layout[k + 1].id;
      SeekParamAt(f, b, |ParamsOf(f.params, b)|);
    }
  }

  lemma SignatureKeepsInv(f: Func)
    requires Inv(f)
    ensures forall s :: Inv(f.(sigParams := s))
  {
    forall s ensures Inv(f.(sigParams := s)) {
      assert AllParams(f.(sigParams := s)) == AllParams(f);
    }
  }

  lemma {:induction false} ReplaceParamAt(f: Func, c: nat, r: nat)
    requires Inv(f) && c < |f.layout| && 0 < r <= |ParamsOf(f.params, f.layout[c].id)|
    ensures f.layout[c].insts != [] && FirstInst(f.layout, f.layout[c].id) == Some(f.layout[c].insts[0])
    ensures var b := f.layout[c].id;
            var g := ParamByConst(f, b, r - 1, f.layout[c].insts[0]);
            && (forall s :: Inv(g.(sigParams := s))) && g.sigParams == f.sigParams
            && CursorOk(ReplaceBlockParamWithConst(b, r - 1), g)
            && (EntryBlock(g.layout) == Some(b) ==> b == f.layout[0].id)
  {
    hide Inv, Flatten, ParamByConst, InsertConst, TablesGrow, Once;
    InvLayout(f);
    BlockIndexAt(f.layout, c);
    ParamByConstAt(f, c, r - 1);
    var b := f.layout[c].id;
    var g := ParamByConst(f, b, r - 1, f.layout[c].insts[0]);
    assert g.layout[c].id == b && |ParamsOf(g.params, b)| == |ParamsOf(f.params, b)| - 1;
    SignatureKeepsInv(g);
  }

  lemma {:induction false} KeepsReplaceParam(block: Block, remaining: nat, f: Func)
    requires Inv(f) && CursorOk(ReplaceBlockParamWithConst(block, remaining), f)
    ensures GoodStep(MutateReplaceParam(block, remaining, f), f)
  {
    hide Inv, Flatten, ParamByConst, SeekParam, FirstInst;
    SeekParamAt(f, block, remaining);
    match SeekParam(f, block, remaining)
    case None =>
    case Some((b, r)) =>
      var c :| 0 <= c < |f.layout| && f.layout[c].id == b;
      ReplaceParamAt(f, c, r);
      var g := ParamByConst(f, b, r - 1, f.layout[c].insts[0]);
      assert g == g.(sigParams := g.sigParams);
  }

  // ----- Merging a block into its predecessor -----

  lemma {:induction false} AliasParamsOk(aliases: map<Value, Value>, params: seq<Value>, args: seq<BlockArg>)
    requires |params| == |args| && AliasFree(aliases) && Once(params)
    requires forall v :: v in params ==> v !in aliases
    ensures var r := AliasParams(aliases, params, args);
            if r.Ok?
            then AliasFree(r.value) && aliases.Keys <= r.value.Keys && forall v :: v in r.value ==> v in aliases || v in params
            else r.fault == AliasLoop
    decreases |params|
  {
    hide Root;
    if params != [] {
      var p, rest := params[0], params[1..];
      assert params == [p] + rest;
      OnceSub(rest, params);
      NotTwice(params, rest, p);
      if args[0].ValueArg? && p != args[0].value {
        var r := Root(aliases, args[0].value);
        RootIsFree(aliases, args[0].value);
        if r != p {
          AliasFreeUpdate(aliases, p, r);
          AliasParamsOk(aliases[p := r], rest, args[1..]);
        }
      } else {
        AliasParamsOk(aliases, rest, args[1..]);
      }
    }
  }

  /** A parameter that is not made an alias is in no knot. */
  lemma {:induction false} KnotSkips(aliases: map<Value, Value>, params: seq<Value>, args: seq<BlockArg>, knot: set<Value>)
    requires |params| == |args| > 0 && !(args[0].ValueArg? && args[0].value != params[0])
    ensures Knot(aliases, params, args, knot) <==> Knot(aliases, params[1..], args[1..], knot)
  {
    hide Root;
    var rest, others := params[1..], args[1..];
    forall p ensures Passed(aliases, params, args, knot, p) <==> Passed(aliases, rest, others, knot, p) {
      if k: nat :| PassesAt(aliases, params, args, knot, p, k) {
        assert PassesAt(aliases, rest, others, knot, p, k - 1);
      }
      if k: nat :| PassesAt(aliases, rest, others, knot, p, k) {
        assert PassesAt(aliases, params, args, knot, p, k + 1);
      }
    }
  }

  /** The first parameter is made an alias of a value other than itself. */
  ghost predicate FirstAliased(aliases: map<Value, Value>, params: seq<Value>, args: seq<BlockArg>, r: Value) {
    && |params| == |args| > 0 && args[0].ValueArg? && args[0].value != params[0]
    && r == Root(aliases, args[0].value) && r != params[0] && r !in aliases && params[0] !in aliases
  }

  lemma ShrinkAt(aliases: map<Value, Value>, params: seq<Value>, args: seq<BlockArg>, r: Value, knot: set<Value>, p: Value, k: nat)
    requires FirstAliased(aliases, params, args, r) && PassesAt(aliases, params, args, knot, p, k) && p != params[0]
    requires params[0] in knot ==> r in knot
    ensures k > 0 && PassesAt(aliases[params[0] := r], params[1..], args[1..], knot - {params[0]}, p, k - 1)
  {
    hide Root;
    RootUpdate(aliases, params[0], r, args[k].value);
  }

  lemma FirstPasses(aliases: map<Value, Value>, params: seq<Value>, args: seq<BlockArg>, r: Value, knot: set<Value>, k: nat)
    requires FirstAliased(aliases, params, args, r) && PassesAt(aliases, params, args, knot, params[0], k) && Once(params)
    ensures r in knot
  {
    hide Root;
    if k > 0 {
      CountTwice(params, 0, k);
    }
  }

  /** With the first parameter an alias, the other ones of a knot still are one. */
  lemma {:induction false} KnotShrinks(aliases: map<Value, Value>, params: seq<Value>, args: seq<BlockArg>, r: Value, knot: set<Value>)
    requires FirstAliased(aliases, params, args, r) && Knot(aliases, params, args, knot) && Once(params)
    ensures Knot(aliases[params[0] := r], params[1..], args[1..], knot - {params[0]})
  {
    hide PassesAt, Once;
    var p0, left, more, rest, others := params[0], knot - {params[0]}, aliases[params[0] := r], params[1..], args[1..];
    assert r != p0;
    hide FirstAliased;
    if p0 in knot {
      assert Passed(aliases, params, args, knot, p0);
      var k: nat :| PassesAt(aliases, params, args, knot, p0, k);
      FirstPasses(aliases, params, args, r, knot, k);
      assert r in left;
    }
    var q :| q in knot;
    assert q == p0 || q in left;
    forall p | p in left ensures Passed(more, rest, others, left, p) {
      assert Passed(aliases, params, args, knot, p);
      var k: nat :| PassesAt(aliases, params, args, knot, p, k);
      ShrinkAt(aliases, params, args, r, knot, p, k);
    }
    assert Knot(more, rest, others, left);
  }

  lemma GrowAt(aliases: map<Value, Value>, params: seq<Value>, args: seq<BlockArg>, r: Value, left: set<Value>, knot: set<Value>, p: Value, k: nat)
    requires FirstAliased(aliases, params, args, r)
    requires PassesAt(aliases[params[0] := r], params[1..], args[1..], left, p, k)
    requires left <= knot && (r in left ==> params[0] in knot)
    ensures PassesAt(aliases, params, args, knot, p, k + 1)
  {
    hide Root;
    RootUpdate(aliases, params[0], r, args[k + 1].value);
  }

  /** And a knot of the other ones, with the first if one of them gets it, was one before. */
  lemma {:induction false} KnotGrows(aliases: map<Value, Value>, params: seq<Value>, args: seq<BlockArg>, r: Value, left: set<Value>)
    requires FirstAliased(aliases, params, args, r) && Knot(aliases[params[0] := r], params[1..], args[1..], left)
    ensures exists knot :: Knot(aliases, params, args, knot)
  {
    hide Passed, FirstAliased;
    assert |params| > 0 by {
      FirstThere(aliases, params, args, r);
    }
    var knot := if r in left then left + {params[0]} else left;
    forall p | p in knot ensures Passed(aliases, params, args, knot, p) {
      if p in left {
        GrowsOne(aliases, params, args, r, left, knot, p);
      } else {
        FirstGets(aliases, params, args, r, knot);
      }
    }
    assert Knot(aliases, params, args, knot);
  }

  lemma FirstThere(aliases: map<Value, Value>, params: seq<Value>, args: seq<BlockArg>, r: Value)
    requires FirstAliased(aliases, params, args, r)
    ensures |params| == |args| > 0
  {
  }

  lemma FirstGets(aliases: map<Value, Value>, params: seq<Value>, args: seq<BlockArg>, r: Value, knot: set<Value>)
    requires FirstAliased(aliases, params, args, r) && r in knot
    ensures Passed(aliases, params, args, knot, params[0])
  {
    hide Root;
    assert PassesAt(aliases, params, args, knot, params[0], 0);
  }

  lemma GrowsOne(aliases: map<Value, Value>, params: seq<Value>, args: seq<BlockArg>, r: Value, left: set<Value>, knot: set<Value>, p: Value)
    requires FirstAliased(aliases, params, args, r) && Passed(aliases[params[0] := r], params[1..], args[1..], left, p)
    requires left <= knot && (r in left ==> params[0] in knot)
    ensures Passed(aliases, params, args, knot, p)
  {
    hide PassesAt, FirstAliased;
    FirstThere(aliases, params, args, r);
    var more, rest, others := aliases[params[0] := r], params[1..], args[1..];
    var k: nat :| PassesAt(more, rest, others, left, p, k);
    GrowAt(aliases, params, args, r, left, knot, p, k);
  }

  /** Making parameters aliases fails exactly if some of them are passed for one another in a circle. */
  lemma {:induction false} AliasParamsIff(aliases: map<Value, Value>, params: seq<Value>, args: seq<BlockArg>)
    requires |params| == |args| && AliasFree(aliases) && Once(params) && forall v :: v in params ==> v !in aliases
    ensures AliasParams(aliases, params, args).Err? <==> exists knot :: Knot(aliases, params, args, knot)
    decreases |params|
  {
    hide Root, Knot, AliasFree;
    if params == [] {
      forall knot ensures !Knot(aliases, params, args, knot) {
        NoKnot(aliases, params, args, knot);
      }
    } else {
      var p, rest := params[0], params[1..];
      assert params == [p] + rest;
      OnceSub(rest, params);
      NotTwice(params, rest, p);
      if args[0].ValueArg? && p != args[0].value {
        var r := Root(aliases, args[0].value);
        RootIsFree(aliases, args[0].value);
        if r == p {
          OwnKnot(aliases, params, args);
        } else {
          AliasFreeUpdate(aliases, p, r);
          var more, others := aliases[p := r], args[1..];
          AliasParamsIff(more, rest, others);
          if knot :| Knot(aliases, params, args, knot) {
            KnotShrinks(aliases, params, args, r, knot);
          }
          if left :| Knot(more, rest, others, left) {
            KnotGrows(aliases, params, args, r, left);
          }
        }
      } else {
        var others := args[1..];
        AliasParamsIff(aliases, rest, others);
        forall knot ensures Knot(aliases, params, args, knot) <==> Knot(aliases, rest, others, knot) {
          KnotSkips(aliases, params, args, knot);
        }
      }
    }
  }

  lemma NoKnot(aliases: map<Value, Value>, params: seq<Value>, args: seq<BlockArg>, knot: set<Value>)
    requires params == []
    ensures !Knot(aliases, params, args, knot)
  {
  }

  lemma OwnKnot(aliases: map<Value, Value>, params: seq<Value>, args: seq<BlockArg>)
    requires |params| == |args| > 0 && args[0].ValueArg? && args[0].value != params[0] && Root(aliases, args[0].value) == params[0]
    ensures Knot(aliases, params, args, {params[0]})
  {
    hide Root;
    var p := params[0];
    assert PassesAt(aliases, params, args, {p}, p, 0);
  }

  /** In a knot some argument stands for a parameter. */
  lemma KnotNames(aliases: map<Value, Value>, params: seq<Value>, args: seq<BlockArg>, knot: set<Value>) returns (k: nat)
    requires Knot(aliases, params, args, knot)
    ensures k < |args| && args[k].ValueArg? && Root(aliases, args[k].value) in params
  {
    hide Root;
    var p :| p in knot;
    assert Passed(aliases, params, args, knot, p);
    k :| PassesAt(aliases, params, args, knot, p, k);
    assert Passed(aliases, params, args, knot, Root(aliases, args[k].value));
  }

  lemma RootIsFree(aliases: map<Value, Value>, v: Value)
    requires AliasFree(aliases)
    ensures Root(aliases, v) !in aliases
  {
  }

  /** What the layout has to satisfy for a merge of `b` along the branch `inst` to keep the invariant. */
  ghost predicate MergeLayoutOk(f: Func, m: Layout, b: Block, inst: Inst) {
    && m != [] && NoEmptyBlock(m) && DistinctIds(m)
    && (forall k :: 0 <= k < |m| ==> m[k].id != b)
    && multiset(Flatten(f.layout)) == multiset(Flatten(m)) + multiset{inst}
    && multiset(AllParams(f)) == multiset(ParamsIn(f.params, m)) + multiset(ParamsOf(f.params, b))
    && TerminatorsOk(f.(layout := m))
  }

  lemma NotTwice<T(!new)>(whole: seq<T>, part: seq<T>, x: T)
    requires Once(whole) && multiset(whole) == multiset(part) + multiset{x}
    ensures x !in part
  {
    assert multiset(whole)[x] == multiset(part)[x] + 1;
    assert x in part <==> x in multiset(part);
  }

  lemma OnceDisjoint<T(!new)>(whole: seq<T>, a: seq<T>, b: seq<T>, x: T)
    requires Once(whole) && multiset(whole) == multiset(a) + multiset(b) && x in a
    ensures x !in b
  {
    assert multiset(whole)[x] == multiset(a)[x] + multiset(b)[x];
    assert x in multiset(a) && (x in b <==> x in multiset(b));
  }

  lemma {:induction false} SolePred(f: Func, b: Block, i: Inst)
    requires TerminatorsOk(f) && |Preds(f, b)| == 1 && i in Flatten(f.layout) && Targets(Data(f.insts, i), b)
    ensures i == Preds(f, b)[0].inst
  {
    BranchIsPred(f, b, i);
  }

  lemma {:induction false} MergeKeepsArity(f: Func, m: Layout, b: Block)
    requires Inv(f) && |Preds(f, b)| == 1 && MergeLayoutOk(f, m, b, Preds(f, b)[0].inst)
    ensures AllArityOk(f.(layout := m, params := f.params[b := []]))
  {
    var inst := Preds(f, b)[0].inst;
    NotTwice(Flatten(f.layout), Flatten(m), inst);
    forall i | i in Flatten(m) ensures ArityOk(f.params[b := []], Data(f.insts, i)) {
      SubIn(Flatten(m), Flatten(f.layout), i);
      assert ArityOk(f.params, Data(f.insts, i));
      if Targets(Data(f.insts, i), b) {
        SolePred(f, b, i);
      }
    }
  }

  lemma {:induction false} MergeKeepsParams(f: Func, m: Layout, b: Block, inst: Inst, aliases: map<Value, Value>)
    requires Inv(f) && MergeLayoutOk(f, m, b, inst)
    requires forall v :: v in aliases ==> v in f.aliases || v in ParamsOf(f.params, b)
    ensures var ps := ParamsIn(f.params[b := []], m);
            Once(ps) && forall v :: v in ps ==> v !in aliases
  {
    var ps := ParamsIn(f.params, m);
    ParamsElsewhere(f.params, m, b, []);
    OnceSub(ps, AllParams(f));
    forall v | v in ps ensures v !in aliases {
      SubIn(ps, AllParams(f), v);
      OnceDisjoint(AllParams(f), ps, ParamsOf(f.params, b), v);
    }
  }

  lemma {:induction false} ParamsOfLaidOut(f: Func, k: nat)
    requires Inv(f) && k < |f.layout|
    ensures Once(ParamsOf(f.params, f.layout[k].id))
    ensures forall v :: v in ParamsOf(f.params, f.layout[k].id) ==> v !in f.aliases
  {
    ParamsSplit(f.params, f.layout, k);
    OnceSub(ParamsOf(f.params, f.layout[k].id), AllParams(f));
    forall v | v in ParamsOf(f.params, f.layout[k].id) ensures v !in f.aliases {
      InParams(f.params, f.layout, k, v);
    }
  }

  lemma {:induction false} MergeKeepsInv(f: Func, m: Layout, b: Block, aliases: map<Value, Value>)
    requires Inv(f) && |Preds(f, b)| == 1 && MergeLayoutOk(f, m, b, Preds(f, b)[0].inst)
    requires AliasFree(aliases)
    requires forall v :: v in aliases ==> v in f.aliases || v in ParamsOf(f.params, b)
    ensures Inv(f.(layout := m, params := f.params[b := []], aliases := aliases))
  {
    hide Flatten, ParamsIn, Preds, Root;
    MergeKeepsArity(f, m, b);
    MergeKeepsParams(f, m, b, Preds(f, b)[0].inst, aliases);
    OnceSub(Flatten(m), Flatten(f.layout));
    forall i | i in Flatten(m) ensures i < f.nextInst {
      SubIn(Flatten(m), Flatten(f.layout), i);
    }
  }

  /** The layout of a merge of block `bi` into another block `pi`. */
  function MergedAt(l: Layout, pi: nat, bi: nat): Layout
    requires pi < |l| && bi < |l| && pi != bi && l[pi].insts != []
  {
    var s := l[pi].insts;
    var m := WithInsts(l, pi, s[..|s| - 1] + l[bi].insts);
    m[..bi] + m[bi + 1..]
  }

  lemma WithInstsIds(l: Layout, k: nat, s: seq<Inst>)
    requires DistinctIds(l) && k < |l|
    ensures DistinctIds(WithInsts(l, k, s))
    ensures forall c :: 0 <= c < |l| ==> BlockIndex(WithInsts(l, k, s), l[c].id) == Some(c)
  {
    var m := WithInsts(l, k, s);
    forall c | 0 <= c < |l| ensures BlockIndex(m, l[c].id) == Some(c) {
      BlockIndexAt(m, c);
    }
  }

  lemma {:induction false} MergedLayoutAt(l: Layout, pi: nat, bi: nat)
    requires WfLayout(l) && pi < |l| && bi < |l| && pi != bi
    ensures var s := l[pi].insts; MergedLayout(l, Pred(l[pi].id, s[|s| - 1]), l[bi].id) == MergedAt(l, pi, bi)
  {
    hide Flatten, Once, Layouts.RemoveInst, BlockIndex, DistinctIds;
    var s := l[pi].insts;
    RemoveInstAt(l, pi, |s| - 1);
    assert Without(s, |s| - 1) == s[..|s| - 1];
    var l1 := WithInsts(l, pi, s[..|s| - 1]);
    var l2 := WithInsts(l, pi, s[..|s| - 1] + l[bi].insts);
    assert WithInsts(l1, pi, s[..|s| - 1] + l[bi].insts) == l2;
    WithInstsIds(l, pi, s[..|s| - 1]);
    WithInstsIds(l, pi, s[..|s| - 1] + l[bi].insts);
    assert InstsOf(l1, l[bi].id) == l[bi].insts;
  }

  lemma Cancel<T>(a: multiset<T>, b: multiset<T>, c: multiset<T>)
    requires a + c == b + c
    ensures a == b
  {
    assert a == (a + c) - c && b == (b + c) - c;
  }

  lemma {:induction false} MergedAtFlatten(l: Layout, pi: nat, bi: nat)
    requires pi < |l| && bi < |l| && pi != bi && l[pi].insts != []
    ensures multiset(Flatten(l)) == multiset(Flatten(MergedAt(l, pi, bi))) + multiset{l[pi].insts[|l[pi].insts| - 1]}
  {
    hide Flatten;
    var s, t := l[pi].insts, l[bi].insts;
    var init, last := s[..|s| - 1], s[|s| - 1];
    var m := WithInsts(l, pi, init + t);
    FlattenSplit(l, pi);
    assert s == init + [last];
    FlattenWithInsts(l, pi, init + t);
    RemovedFlatten(m, bi);
    assert m[bi].insts == t;
    var pre, post := Flatten(l[..pi]), Flatten(l[pi + 1..]);
    assert multiset(pre + s + post) == multiset(pre) + multiset(init) + multiset{last} + multiset(post);
    assert multiset(pre + (init + t) + post) == multiset(pre) + multiset(init) + multiset(post) + multiset(t);
    Cancel(multiset(pre) + multiset(init) + multiset(post), multiset(Flatten(m[..bi] + m[bi + 1..])), multiset(t));
  }

  lemma {:induction false} MergedAtParams(params: map<Block, seq<Value>>, l: Layout, pi: nat, bi: nat)
    requires pi < |l| && bi < |l| && pi != bi && l[pi].insts != []
    ensures multiset(ParamsIn(params, l)) ==
            multiset(ParamsIn(params, MergedAt(l, pi, bi))) + multiset(ParamsOf(params, l[bi].id))
  {
    var s := l[pi].insts;
    ParamsWithInsts(params, l, pi, s[..|s| - 1] + l[bi].insts);
    ParamsRemoveBlock(params, WithInsts(l, pi, s[..|s| - 1] + l[bi].insts), bi);
  }

  lemma {:induction false} MergedAtTerminators(f: Func, pi: nat, bi: nat)
    requires TerminatorsOk(f) && pi < |f.layout| && bi < |f.layout| && pi != bi && f.layout[pi].insts != []
    ensures TerminatorsOk(f.(layout := MergedAt(f.layout, pi, bi)))
  {
    var l := f.layout;
    var s, t := l[pi].insts, l[bi].insts;
    var g := f.(layout := WithInsts(l, pi, s[..|s| - 1] + t));
    assert BranchesLast(f.insts, s) && BranchesLast(f.insts, t);
    forall c | 0 <= c < |l| ensures BranchesLast(f.insts, g.layout[c].insts) {
      if c != pi {
        assert g.layout[c] == l[c];
      }
    }
    RemovedTerminators(g, bi);
  }

  lemma {:induction false} MergedAtBlocks(l: Layout, pi: nat, bi: nat)
    requires NoEmptyBlock(l) && DistinctIds(l) && pi < |l| && bi < |l| && pi != bi
    ensures var m := MergedAt(l, pi, bi);
            m != [] && NoEmptyBlock(m) && DistinctIds(m) && forall k :: 0 <= k < |m| ==> m[k].id != l[bi].id
  {
  }

  lemma {:induction false} MergedAtOk(f: Func, pi: nat, bi: nat)
    requires Inv(f) && pi < |f.layout| && bi < |f.layout| && pi != bi
    ensures f.layout[pi].insts != []
    ensures MergeLayoutOk(f, MergedAt(f.layout, pi, bi), f.layout[bi].id, f.layout[pi].insts[|f.layout[pi].insts| - 1])
  {
    hide Flatten, Once, AllArityOk, AliasFree, TerminatorsOk, ParamsIn, MergedAt;
    MergedAtBlocks(f.layout, pi, bi);
    MergedAtFlatten(f.layout, pi, bi);
    MergedAtParams(f.params, f.layout, pi, bi);
    MergedAtTerminators(f, pi, bi);
  }

  lemma {:induction false} SelfMergedLayout(l: Layout, bi: nat)
    requires WfLayout(l) && bi < |l| && |l[bi].insts| == 1
    ensures MergedLayout(l, Pred(l[bi].id, l[bi].insts[0]), l[bi].id) == l[..bi] + l[bi + 1..]
  {
    hide Flatten, Once, BlockIndex, DistinctIds, Layouts.RemoveInst;
    RemoveInstAt(l, bi, 0);
    var l1 := WithInsts(l, bi, []);
    assert Without(l[bi].insts, 0) == [];
    WithInstsIds(l, bi, []);
    assert WithInsts(l1, bi, [] + []) == l1;
  }

  lemma {:induction false} RemovedBlocks(l: Layout, bi: nat)
    requires NoEmptyBlock(l) && DistinctIds(l) && 0 < bi < |l|
    ensures var m := l[..bi] + l[bi + 1..];
            m != [] && NoEmptyBlock(m) && DistinctIds(m) && forall k :: 0 <= k < |m| ==> m[k].id != l[bi].id
  {
  }

  /** A block that only jumps to itself just goes. */
  lemma {:induction false} SelfMergeOk(f: Func, bi: nat)
    requires Inv(f) && 0 < bi < |f.layout| && |f.layout[bi].insts| == 1
    ensures MergeLayoutOk(f, f.layout[..bi] + f.layout[bi + 1..], f.layout[bi].id, f.layout[bi].insts[0])
  {
    hide Flatten, Once, AllArityOk, AliasFree, TerminatorsOk, ParamsIn;
    RemovedBlocks(f.layout, bi);
    RemovedFlatten(f.layout, bi);
    assert f.layout[bi].insts == [f.layout[bi].insts[0]];
    ParamsRemoveBlock(f.params, f.layout, bi);
    RemovedTerminators(f, bi);
  }

  lemma {:induction false} OnlyInst(l: Layout, bi: nat)
    requires WfLayout(l) && bi < |l|
    requires InstsOf(Layouts.RemoveInst(l, l[bi].insts[|l[bi].insts| - 1]), l[bi].id) == []
    ensures |l[bi].insts| == 1
  {
    hide Flatten, Once, BlockIndex, Layouts.RemoveInst, DistinctIds;
    var s := l[bi].insts;
    RemoveInstAt(l, bi, |s| - 1);
    WithInstsIds(l, bi, Without(s, |s| - 1));
  }

  /** Something is left without the branch exactly if there is more than the branch. */
  lemma {:induction false} MoreThanBranch(f: Func, b: Block)
    requires Inv(f) && BlockIndex(f.layout, b).Some? && |Preds(f, b)| == 1 && Preds(f, b)[0].block == b
    ensures InstsOf(Layouts.RemoveInst(f.layout, Preds(f, b)[0].inst), b) != [] <==> |InstsOf(f.layout, b)| > 1
  {
    hide Flatten, Once, BlockIndex, Layouts.RemoveInst, PredsIn, AllArityOk, AliasFree, TerminatorsOk;
    var l := f.layout;
    var bi := PredsSound(f.insts, l, b, Preds(f, b)[0]);
    BlockIndexAt(l, bi);
    var s := l[bi].insts;
    RemoveInstAt(l, bi, |s| - 1);
    WithInstsIds(l, bi, Without(s, |s| - 1));
  }

  lemma {:induction false} MergedLayoutOk(f: Func, b: Block)
    requires Inv(f) && |Preds(f, b)| == 1 && BlockIndex(f.layout, b).Some? && BlockIndex(f.layout, b).value > 0
    requires var pred := Preds(f, b)[0]; pred.block == b ==> InstsOf(Layouts.RemoveInst(f.layout, pred.inst), b) == []
    ensures MergeLayoutOk(f, MergedLayout(f.layout, Preds(f, b)[0], b), b, Preds(f, b)[0].inst)
  {
    hide Flatten, MergedLayout, AllArityOk, AliasFree, TerminatorsOk, MergeLayoutOk, Once, MergedAt, Layouts.RemoveInst;
    var l, pred, bi := f.layout, Preds(f, b)[0], BlockIndex(f.layout, b).value;
    var pi := PredsSound(f.insts, l, b, pred);
    if pi == bi {
      OnlyInst(l, bi);
      SelfMergedLayout(l, bi);
      SelfMergeOk(f, bi);
    } else {
      MergedLayoutAt(l, pi, bi);
      MergedAtOk(f, pi, bi);
    }
  }

  lemma {:induction false} KeepsMergeBlocks(block: Block, prev: Option<Block>, f: Func)
    requires Inv(f)
    ensures GoodStep(MutateMergeBlocks(block, prev, f), f)
  {
    hide Inv, Flatten, MergedLayout, Preds, AliasParams, Once, AliasFree;
    InvLayout(f);
    match NextBlock(f.layout, block)
    case None =>
    case Some(b) =>
      NextBlockAt(f.layout, block);
      var preds := Preds(f, b);
      if |preds| == 1 && |Data(f.insts, preds[0].inst).dests| == 1 {
        MergeStep(f, b);
      }
  }

  lemma {:induction false} MergeStep(f: Func, b: Block)
    requires Inv(f) && BlockIndex(f.layout, b).Some? && BlockIndex(f.layout, b).value > 0
    requires |Preds(f, b)| == 1 && |Data(f.insts, Preds(f, b)[0].inst).dests| == 1
    ensures var pred := Preds(f, b)[0];
            var ps, dest := ParamsOf(f.params, b), Data(f.insts, pred.inst).dests[0];
            && |ps| == |dest.args|
            && var r := AliasParams(f.aliases, ps, dest.args);
               && (TangledAt(f, b) ==> r.Err?)
               && if r.Err? then r.fault == AliasLoop && TangledAt(f, b)
               else if pred.block == b && InstsOf(Layouts.RemoveInst(f.layout, pred.inst), b) != [] then OwnPred(f, b)
               else Inv(f.(aliases := r.value, params := f.params[b := []], layout := MergedLayout(f.layout, pred, b)))
  {
    hide Flatten, MergedLayout, Once, AliasFree, TerminatorsOk;
    var pred, bi := Preds(f, b)[0], BlockIndex(f.layout, b).value;
    var ps, dest := ParamsOf(f.params, b), Data(f.insts, pred.inst).dests[0];
    assert Targets(Data(f.insts, pred.inst), b);
    assert ArityOk(f.params, Data(f.insts, pred.inst));
    ParamsOfLaidOut(f, bi);
    AliasParamsOk(f.aliases, ps, dest.args);
    var r := AliasParams(f.aliases, ps, dest.args);
    AliasParamsIff(f.aliases, ps, dest.args);
    if pred.block == b {
      MoreThanBranch(f, b);
    }
    if r.Ok? && !(pred.block == b && InstsOf(Layouts.RemoveInst(f.layout, pred.inst), b) != []) {
      MergedLayoutOk(f, b);
      MergeKeepsInv(f, MergedLayout(f.layout, pred, b), b, r.value);
    }
  }

  // ----- Entities -----

  /** Renumbering entities touches neither layout nor edges. */
  lemma {:induction false} RenumberKeepsInv(f: Func, g: Func)
    requires Inv(f) && g == f.(insts := g.insts, extFuncs := g.extFuncs, signatures := g.signatures,
                               stackSlots := g.stackSlots, globals := g.globals)
    requires g.insts.Keys == f.insts.Keys
    requires forall i :: i in f.insts ==> g.insts[i] == f.insts[i].(entity := g.insts[i].entity)
    ensures Inv(g)
  {
    forall c | 0 <= c < |f.layout| ensures BranchesLast(g.insts, f.layout[c].insts) {
      assert BranchesLast(f.insts, f.layout[c].insts);
    }
    forall i | i in Flatten(f.layout) ensures ArityOk(f.params, Data(g.insts, i)) {
      assert ArityOk(f.params, Data(f.insts, i));
      assert Data(g.insts, i).dests == Data(f.insts, i).dests;
    }
    assert AllParams(g) == AllParams(f);
  }

  lemma RenumberInstsShape(f: Func, formats: set<Format>, used: set<nat>, n: nat)
    ensures var r := RenumberInsts(f, formats, used, n);
            r.Keys == f.insts.Keys && forall i :: i in f.insts ==> r[i] == f.insts[i].(entity := r[i].entity)
  {
    hide Flatten, Renumber;
  }

  lemma {:induction false} KeepsEntities(kind: nat, f: Func)
    requires Inv(f)
    ensures GoodStep(MutateEntities(kind, f), f)
  {
    hide Inv, Flatten, Keep, Renumber, RenumberInsts, UsedBy;
    if kind <= 3 && (kind == 3 ==> OnlySimpleGlobals(f)) {
      var g := MutateEntities(kind, f).outcome.func;
      match kind {
        case 0 => RenumberInstsShape(f, {Call, FuncAddr}, UsedBy(f, {Call, FuncAddr}), |f.extFuncs|);
        case 1 => RenumberInstsShape(f, {CallIndirect}, SignaturesUsed(f), |f.signatures|);
        case 2 => RenumberInstsShape(f, {StackLoad, StackStore}, UsedBy(f, {StackLoad, StackStore}), |f.stackSlots|);
        case _ => RenumberInstsShape(f, {UnaryGlobalValue}, UsedBy(f, {UnaryGlobalValue}), |f.globals|);
      }
      RenumberKeepsInv(f, g);
    }
  }
}
