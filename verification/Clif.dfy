/**
  CLIF functions as the reducer sees them: a layout, and the data-flow tables that say for every
  instruction its format, operands, branch destinations and results, and for every block its parameters.
 */
module Clif {
  import opened Layouts

  type Value = nat

  datatype Type = F32 | F64 | I64 | I128 | Vector | OtherType(code: nat)

  /** An argument passed along a branch: a value, or something a `try_call` produces. */
  datatype BlockArg = ValueArg(value: Value) | TryCallRet(index: nat) | TryCallExn(index: nat)

  datatype BlockCall = BlockCall(block: Block, args: seq<BlockArg>)

  datatype Opcode = Iconst | F32const | F64const | Vconst | Uextend | Trap | Return | ReturnCall | OtherOp(code: nat)

  datatype Format =
    | Jump | Brif | BranchTable | TryCall | TryCallIndirect
    | Call | FuncAddr | CallIndirect | StackLoad | StackStore | UnaryGlobalValue | PlainFormat

  /** `entity` is the function, signature, stack slot or global value the format refers to. */
  datatype InstData = InstData(format: Format, opcode: Opcode, args: seq<Value>, dests: seq<BlockCall>, entity: nat)

  datatype ExtFunc = ExtFunc(name: nat, signature: nat)

  datatype GlobalValueData =
    | VMContext
    | Symbol(name: nat)
    | Load(base: nat)
    | IAddImm(base: nat)
    | DynScaleTargetConst

  datatype Func = Func(
    layout: Layout,
    insts: map<Inst, InstData>,
    results: map<Inst, seq<Value>>,
    params: map<Block, seq<Value>>,
    types: map<Value, Type>,
    aliases: map<Value, Value>,
    sigParams: seq<Type>,
    extFuncs: seq<ExtFunc>,
    signatures: seq<nat>,
    stackSlots: seq<nat>,
    globals: seq<GlobalValueData>,
    srclocs: map<Inst, nat>,
    nextInst: Inst,
    nextValue: Value)

  const Nop := InstData(PlainFormat, OtherOp(0), [], [], 0)

  function Data(insts: map<Inst, InstData>, i: Inst): InstData {
    if i in insts then insts[i] else Nop
  }

  function ResultsOf(results: map<Inst, seq<Value>>, i: Inst): seq<Value> {
    if i in results then results[i] else []
  }

  function ParamsOf(params: map<Block, seq<Value>>, b: Block): seq<Value> {
    if b in params then params[b] else []
  }

  function TypeOf(f: Func, v: Value): Type {
    if v in f.types then f.types[v] else OtherType(0)
  }

  // ----- Aliases -----

  /**
    Follows a chain of aliases to its end.  A chain that comes back to a value it has visited stops
    there, still on an alias; that is how a loop shows.
   */
  function Root(aliases: map<Value, Value>, v: Value): Value
    decreases |aliases|
  {
    if v in aliases then Root(aliases - {v}, aliases[v]) else v
  }

  /** No chain comes back to itself. */
  predicate AliasFree(aliases: map<Value, Value>) {
    forall v :: v in aliases ==> Root(aliases, v) !in aliases
  }

  /** Making `p` an alias of a value that is no alias redirects exactly the chains that ended in `p`. */
  lemma {:induction false} RootUpdate(aliases: map<Value, Value>, p: Value, r: Value, v: Value)
    requires p !in aliases && r !in aliases && p != r
    ensures Root(aliases[p := r], v) == if Root(aliases, v) == p then r else Root(aliases, v)
    decreases |aliases|
  {
    var more := aliases[p := r];
    if v in aliases {
      assert more - {v} == (aliases - {v})[p := r];
      RootUpdate(aliases - {v}, p, r, aliases[v]);
    } else if v == p {
      assert r !in more - {p};
    }
  }

  lemma AliasFreeUpdate(aliases: map<Value, Value>, p: Value, r: Value)
    requires AliasFree(aliases) && p !in aliases && r !in aliases && p != r
    ensures AliasFree(aliases[p := r])
  {
    var more := aliases[p := r];
    forall v ensures Root(more, v) !in more {
      RootUpdate(aliases, p, r, v);
    }
  }

  function RootArg(aliases: map<Value, Value>, a: BlockArg): BlockArg {
    if a.ValueArg? then ValueArg(Root(aliases, a.value)) else a
  }

  function RootDests(aliases: map<Value, Value>, dests: seq<BlockCall>): (r: seq<BlockCall>)
  {
    seq(|dests|, k requires 0 <= k < |dests| =>
      BlockCall(dests[k].block,
                seq(|dests[k].args|, j requires 0 <= j < |dests[k].args| => RootArg(aliases, dests[k].args[j]))))
  }

  function RootData(aliases: map<Value, Value>, d: InstData): InstData {
    d.(args := seq(|d.args|, k requires 0 <= k < |d.args| => Root(aliases, d.args[k])),
       dests := RootDests(aliases, d.dests))
  }

  /** `resolve_all_aliases`: every use names the end of its chain, and no alias is left. */
  function ResolveAllAliases(f: Func): Func {
    f.(insts := map i | i in f.insts :: RootData(f.aliases, f.insts[i]), aliases := map[])
  }

  // ----- Control flow -----

  predicate Targets(d: InstData, b: Block) {
    exists k :: 0 <= k < |d.dests| && d.dests[k].block == b
  }

  datatype Pred = Pred(block: Block, inst: Inst)

  /** One entry for every block whose last instruction branches to `b`. */
  function PredsIn(insts: map<Inst, InstData>, l: Layout, b: Block): (r: seq<Pred>)
    ensures forall p :: p in r ==> p.inst in Flatten(l)
    ensures forall p :: p in r ==> Targets(Data(insts, p.inst), b)
  {
    if l == [] then []
    else
      var s := l[0].insts;
      (if s != [] && Targets(Data(insts, s[|s| - 1]), b) then [Pred(l[0].id, s[|s| - 1])] else [])
      + PredsIn(insts, l[1..], b)
  }

  function Preds(f: Func, b: Block): seq<Pred> {
    PredsIn(f.insts, f.layout, b)
  }

  // ----- Parameters of the laid-out blocks -----

  function ParamsIn(params: map<Block, seq<Value>>, l: Layout): seq<Value> {
    if l == [] then [] else ParamsOf(params, l[0].id) + ParamsIn(params, l[1..])
  }

  function AllParams(f: Func): seq<Value> {
    ParamsIn(f.params, f.layout)
  }

  lemma {:induction false} ParamsConcat(params: map<Block, seq<Value>>, a: Layout, b: Layout)
    ensures ParamsIn(params, a + b) == ParamsIn(params, a) + ParamsIn(params, b)
  {
    if a == [] {
      assert a + b == b;
    } else {
      assert (a + b)[1..] == a[1..] + b;
      ParamsConcat(params, a[1..], b);
    }
  }

  lemma ParamsSplit(params: map<Block, seq<Value>>, l: Layout, k: nat)
    requires k < |l|
    ensures ParamsIn(params, l) == ParamsIn(params, l[..k]) + ParamsOf(params, l[k].id) + ParamsIn(params, l[k + 1..])
  {
    assert l == l[..k] + l[k..];
    ParamsConcat(params, l[..k], l[k..]);
    assert l[k..][1..] == l[k + 1..];
  }

  /** Only the order of the blocks matters, not what is in them. */
  lemma {:induction false} ParamsSameIds(params: map<Block, seq<Value>>, a: Layout, b: Layout)
    requires |a| == |b| && forall k :: 0 <= k < |a| ==> a[k].id == b[k].id
    ensures ParamsIn(params, a) == ParamsIn(params, b)
  {
    if a != [] {
      ParamsSameIds(params, a[1..], b[1..]);
    }
  }

  /** A block outside the layout may change its parameters freely. */
  lemma {:induction false} ParamsElsewhere(params: map<Block, seq<Value>>, l: Layout, b: Block, s: seq<Value>)
    requires forall k :: 0 <= k < |l| ==> l[k].id != b
    ensures ParamsIn(params[b := s], l) == ParamsIn(params, l)
  {
    if l != [] {
      ParamsElsewhere(params, l[1..], b, s);
    }
  }

  lemma {:induction false} InParams(params: map<Block, seq<Value>>, l: Layout, b: nat, v: Value)
    requires b < |l| && v in ParamsOf(params, l[b].id)
    ensures v in ParamsIn(params, l)
  {
    ParamsSplit(params, l, b);
  }

  // ----- Invariants -----

  /** What the instruction formats themselves guarantee. */
  predicate WfData(d: InstData) {
    && (d.format.Jump? ==> |d.dests| == 1)
    && (d.dests != [] ==> d.format in {Jump, Brif, BranchTable, TryCall, TryCallIndirect} && d.opcode.OtherOp?)
    && (d.opcode.Uextend? ==> d.args != [])
  }

  /** Every destination gets exactly as many arguments as its block has parameters. */
  ghost predicate ArityOk(params: map<Block, seq<Value>>, d: InstData) {
    forall k :: 0 <= k < |d.dests| ==> |d.dests[k].args| == |ParamsOf(params, d.dests[k].block)|
  }

  ghost predicate AllArityOk(f: Func) {
    forall i :: i in Flatten(f.layout) ==> ArityOk(f.params, Data(f.insts, i))
  }

  /** Only the last instruction of a block may branch. */
  ghost predicate BranchesLast(insts: map<Inst, InstData>, s: seq<Inst>) {
    forall k :: 0 <= k < |s| - 1 ==> Data(insts, s[k]).dests == []
  }

  ghost predicate TerminatorsOk(f: Func) {
    forall b :: 0 <= b < |f.layout| ==> BranchesLast(f.insts, f.layout[b].insts)
  }

  /** The invariant of a reduction. */
  ghost predicate Inv(f: Func) {
    && WfLayout(f.layout)
    && AllArityOk(f)
    && TerminatorsOk(f)
    && (forall i :: i in f.insts ==> WfData(f.insts[i]))
    && (forall i :: i in Flatten(f.layout) ==> i < f.nextInst)
    && (forall i :: i in f.insts || i in f.results ==> i < f.nextInst)
    && Once(AllParams(f))
    && (forall v :: v in AllParams(f) ==> v !in f.aliases)
    && AliasFree(f.aliases)
  }

  lemma InvLayout(f: Func)
    requires Inv(f)
    ensures WfLayout(f.layout)
  {
  }

  /** An instruction that ends a block. */
  predicate IsTerminator(d: InstData) {
    d.dests != [] || d.opcode in {Trap, Return, ReturnCall}
  }

  ghost predicate EndsOnce(insts: map<Inst, InstData>, s: seq<Inst>) {
    s != [] && forall k :: 0 <= k < |s| ==> (IsTerminator(Data(insts, s[k])) <==> k == |s| - 1)
  }

  /** Every block ends in its only terminator, another of those conditions. */
  ghost predicate Terminated(f: Func) {
    forall b :: 0 <= b < |f.layout| ==> EndsOnce(f.insts, f.layout[b].insts)
  }

  /** The entry block's parameters match the signature, one of the conditions of the CLIF verifier. */
  predicate EntryMatches(f: Func) {
    f.layout != [] ==> |f.sigParams| == |ParamsOf(f.params, f.layout[0].id)|
  }
}
