/**
  The eight mutators of the reducer, as functions from a cursor and a function to the next cursor and
  what the mutation did.  Steps that would panic, or not end, are explicit faults.
 */
module Mutators {
  import opened Options
  import opened Layouts
  import opened Clif

  datatype Status = ExpandedOrShrinked | Changed | Skip

  datatype Fault =
    | NoEntryBlock           // `entry_block().unwrap()`
    | NoInst                 // `first_inst(..).unwrap()`, `expect("no inst")`
    | NoParam                // `block_params(..)[param_index]`
    | ArityMismatch          // `assert_eq!(block_params.len(), branch_args.len())`
    | SignatureIndex         // `signature.params.remove(param_index)`
    | AliasLoop              // `debug_assert_ne!(dest, original)`
    | NoPrevBlock            // `prev_block.unwrap()`
    | SelfMerge              // the move loop of `MergeBlocks` never ends

  datatype Outcome = Done | Mutated(func: Func, status: Status) | Faulted(fault: Fault)

  datatype Mutator =
    | RemoveInst(block: Block, inst: Inst)
    | ReplaceInstWithConst(block: Block, inst: Inst)
    | ReplaceInstWithTrap(block: Block, inst: Inst)
    | MoveInstToEntryBlock(block: Block, inst: Inst)
    | RemoveBlock(block: Block)
    | ReplaceBlockParamWithConst(block: Block, paramsRemaining: nat)
    | RemoveUnusedEntities(kind: nat)
    | MergeBlocks(block: Block, prevBlock: Option<Block>)

  datatype Fallible<+T> = Ok(value: T) | Err(fault: Fault)

  datatype Step = Step(next: Mutator, outcome: Outcome)

  // ----- Cursor over the instructions -----

  datatype Advance = End | Advanced(block: Block, inst: Inst) | Stuck(fault: Fault)

  /** The cursor after `inst`: the next instruction, or the first one of the next block. */
  function NextInstRetPrev(l: Layout, block: Block, inst: Inst): Advance {
    match NextInst(l, inst)
    case Some(n) => Advanced(block, n)
    case None =>
      match NextBlock(l, block)
      case None => End
      case Some(b) =>
        match FirstInst(l, b)
        case None => Stuck(NoInst)
        case Some(i) => Advanced(b, i)
  }

  // ----- Constants in place of values -----

  const TrapData := InstData(PlainFormat, Trap, [], [], 0)

  function ConstData(opcode: Opcode, args: seq<Value>): InstData {
    InstData(PlainFormat, opcode, args, [], 0)
  }

  /** Makes a new instruction with one result and puts it before `before`. */
  function Build(f: Func, d: InstData, result: Value, before: Inst): Func {
    f.(layout := InsertInst(f.layout, f.nextInst, before),
       insts := f.insts[f.nextInst := d],
       results := f.results[f.nextInst := [result]],
       nextInst := f.nextInst + 1)
  }

  /** `replace_with_const`: defines `v` by a constant before `before`; a 128-bit one takes two instructions. */
  function InsertConst(f: Func, v: Value, before: Inst): Func {
    match TypeOf(f, v)
    case F32 => Build(f, ConstData(F32const, []), v, before)
    case F64 => Build(f, ConstData(F64const, []), v, before)
    case Vector => Build(f, ConstData(Vconst, []), v, before)
    case I128 =>
      var low := f.nextValue;
      var g := Build(f, ConstData(Iconst, []), low, before).(nextValue := low + 1, types := f.types[low := I64]);
      Build(g, ConstData(Uextend, [low]), v, before)
    case _ => Build(f, ConstData(Iconst, []), v, before)
  }

  function InsertConsts(f: Func, vs: seq<Value>, before: Inst): Func
    decreases |vs|
  {
    if vs == [] then f else InsertConsts(InsertConst(f, vs[0], before), vs[1..], before)
  }

  // ----- Remove an instruction -----

  /** Drops a block that has just lost its last instruction. */
  function DropIfEmpty(l: Layout, b: Block): Layout {
    if InstsOf(l, b) == [] then Layouts.RemoveBlock(l, b) else l
  }

  function MutateRemoveInst(block: Block, inst: Inst, f: Func): Step {
    match NextInstRetPrev(f.layout, block, inst)
    case End => Step(RemoveInst(block, inst), Done)
    case Stuck(e) => Step(RemoveInst(block, inst), Faulted(e))
    case Advanced(b, i) =>
      var g := f.(layout := DropIfEmpty(Layouts.RemoveInst(f.layout, inst), block));
      Step(RemoveInst(b, i), Mutated(g, ExpandedOrShrinked))
  }

  // ----- Replace an instruction by constants -----

  predicate DefinedByIconst(f: Func, v: Value) {
    exists i :: i in f.insts && Root(f.aliases, v) in ResultsOf(f.results, i) && f.insts[i].opcode == Iconst
  }

  /** Nothing to gain: no result, or already the constant this mutator would put there. */
  predicate AlreadyConst(f: Func, inst: Inst) {
    var d := Data(f.insts, inst);
    var rs := ResultsOf(f.results, inst);
    || rs == []
    || d.opcode in {Iconst, F32const, F64const}
    || (d.opcode == Uextend && TypeOf(f, rs[0]) == I128 && d.args != [] && DefinedByIconst(f, d.args[0]))
  }

  function ReplaceByConsts(f: Func, inst: Inst): Func {
    var rs := ResultsOf(f.results, inst);
    var g := InsertConsts(f.(results := f.results[inst := []]), rs, inst);
    g.(layout := Layouts.RemoveInst(g.layout, inst))
  }

  function MutateReplaceInstWithConst(block: Block, inst: Inst, f: Func): Step {
    match NextInstRetPrev(f.layout, block, inst)
    case End => Step(ReplaceInstWithConst(block, inst), Done)
    case Stuck(e) => Step(ReplaceInstWithConst(block, inst), Faulted(e))
    case Advanced(b, i) =>
      var next := ReplaceInstWithConst(b, i);
      if AlreadyConst(f, inst) then Step(next, Mutated(f, Skip))
      else
        var status := if |ResultsOf(f.results, inst)| == 1 then Changed else ExpandedOrShrinked;
        Step(next, Mutated(ReplaceByConsts(f, inst), status))
  }

  // ----- Replace an instruction by a trap -----

  function MutateReplaceInstWithTrap(block: Block, inst: Inst, f: Func): Step {
    match NextInstRetPrev(f.layout, block, inst)
    case End => Step(ReplaceInstWithTrap(block, inst), Done)
    case Stuck(e) => Step(ReplaceInstWithTrap(block, inst), Faulted(e))
    case Advanced(b, i) =>
      var next := ReplaceInstWithTrap(b, i);
      if Data(f.insts, inst).opcode == Trap then Step(next, Mutated(f, Skip))
      else Step(next, Mutated(f.(insts := f.insts[inst := TrapData]), Changed))
  }

  // ----- Move an instruction to the entry block -----

  function MutateMoveInst(block: Block, inst: Inst, f: Func): Step {
    match NextInstRetPrev(f.layout, block, inst)
    case End => Step(MoveInstToEntryBlock(block, inst), Done)
    case Stuck(e) => Step(MoveInstToEntryBlock(block, inst), Faulted(e))
    case Advanced(b, i) =>
      var next := MoveInstToEntryBlock(b, i);
      match EntryBlock(f.layout)
      case None => Step(next, Faulted(NoEntryBlock))
      case Some(entry) =>
        if entry == block || b != block then Step(next, Mutated(f, Skip))
        else match LastInst(f.layout, entry)
          case None => Step(next, Faulted(NoInst))
          case Some(last) =>
            var g := f.(layout := InsertInst(Layouts.RemoveInst(f.layout, inst), inst, last));
            Step(next, Mutated(g, ExpandedOrShrinked))
  }

  // ----- Remove a block -----

  function MutateRemoveBlock(block: Block, f: Func): Step {
    match NextBlock(f.layout, block)
    case None => Step(RemoveBlock(block), Done)
    case Some(b) =>
      Step(RemoveBlock(b), Mutated(f.(layout := Layouts.RemoveBlock(f.layout, b)), ExpandedOrShrinked))
  }

  // ----- Replace a block parameter by a constant -----

  /** Moves on to the next block while the current one has no parameter left. */
  function SeekParam(f: Func, block: Block, remaining: nat): (r: Option<(Block, nat)>)
    ensures r.Some? ==> r.value.1 > 0
    decreases match BlockIndex(f.layout, block) case None => 0 case Some(k) => |f.layout| - k
  {
    if remaining > 0 then Some((block, remaining))
    else match NextBlock(f.layout, block)
      case None => None
      case Some(b) =>
        assert BlockIndex(f.layout, block).Some?;
        var k := BlockIndex(f.layout, block).value;
        var j := BlockIndex(f.layout, b);
        if j.None? || j.value <= k then None   // a block id laid out twice
        else SeekParam(f, b, |ParamsOf(f.params, b)|)
  }

  function DropArg(d: InstData, b: Block, k: nat): InstData {
    d.(dests := seq(|d.dests|, j requires 0 <= j < |d.dests| =>
        if d.dests[j].block == b && k < |d.dests[j].args|
        then BlockCall(b, Without(d.dests[j].args, k))
        else d.dests[j]))
  }

  /** Drops argument `k` on every edge into `b`. */
  function DropArgs(f: Func, preds: seq<Pred>, b: Block, k: nat): Func {
    f.(insts := map i | i in f.insts ::
        if exists p :: p in preds && p.inst == i then DropArg(f.insts[i], b, k) else f.insts[i])
  }

  /** Everything but the change to the function's signature. */
  function ParamByConst(f: Func, b: Block, k: nat, first: Inst): Func
    requires k < |ParamsOf(f.params, b)|
  {
    var ps := ParamsOf(f.params, b);
    var g := InsertConst(f.(params := f.params[b := Without(ps, k)]), ps[k], first);
    DropArgs(g, Preds(g, b), b, k)
  }

  function MutateReplaceParam(block: Block, remaining: nat, f: Func): Step {
    match SeekParam(f, block, remaining)
    case None => Step(ReplaceBlockParamWithConst(block, remaining), Done)
    case Some((b, r)) =>
      var k := r - 1;
      var next := ReplaceBlockParamWithConst(b, k);
      if k >= |ParamsOf(f.params, b)| then Step(next, Faulted(NoParam))
      else match FirstInst(f.layout, b)
        case None => Step(next, Faulted(NoInst))
        case Some(first) =>
          var g := ParamByConst(f, b, k, first);
          if EntryBlock(g.layout) == Some(b) then
            if k < |g.sigParams|
            then Step(next, Mutated(g.(sigParams := Without(g.sigParams, k)), ExpandedOrShrinked))
            else Step(next, Faulted(SignatureIndex))
          else Step(next, Mutated(g, ExpandedOrShrinked))
  }

  // ----- Remove unused entities -----

  /** How many used entries come before entry `r`. */
  function Rank(used: set<nat>, r: nat): nat {
    if r == 0 then 0 else Rank(used, r - 1) + if r - 1 in used then 1 else 0
  }

  /** The used entries of a table, in order. */
  function Keep<T>(table: seq<T>, used: set<nat>): seq<T> {
    if table == [] then []
    else
      var n := |table| - 1;
      Keep(table[..n], used) + if n in used then [table[n]] else []
  }

  /** Where entry `r` of a table with `n` entries goes; a reference outside the table stays. */
  function Renumber(used: set<nat>, n: nat, r: nat): nat {
    if r in used && r < n then Rank(used, r) else r
  }

  /** The entities that laid-out instructions of the given formats refer to. */
  function UsedBy(f: Func, formats: set<Format>): set<nat> {
    set i | i in Flatten(f.layout) && Data(f.insts, i).format in formats :: Data(f.insts, i).entity
  }

  function RenumberInsts(f: Func, formats: set<Format>, used: set<nat>, n: nat): map<Inst, InstData> {
    map i | i in f.insts ::
      if i in Flatten(f.layout) && f.insts[i].format in formats
      then f.insts[i].(entity := Renumber(used, n, f.insts[i].entity))
      else f.insts[i]
  }

  function CompactExtFuncs(f: Func): Func {
    var used := UsedBy(f, {Call, FuncAddr});
    f.(insts := RenumberInsts(f, {Call, FuncAddr}, used, |f.extFuncs|), extFuncs := Keep(f.extFuncs, used))
  }

  function SignaturesUsed(f: Func): set<nat> {
    UsedBy(f, {CallIndirect}) + set k | 0 <= k < |f.extFuncs| :: f.extFuncs[k].signature
  }

  function CompactSignatures(f: Func): Func {
    var used := SignaturesUsed(f);
    var n := |f.signatures|;
    f.(insts := RenumberInsts(f, {CallIndirect}, used, n),
       extFuncs := seq(|f.extFuncs|, k requires 0 <= k < |f.extFuncs| =>
         f.extFuncs[k].(signature := Renumber(used, n, f.extFuncs[k].signature))),
       signatures := Keep(f.signatures, used))
  }

  function CompactStackSlots(f: Func): Func {
    var used := UsedBy(f, {StackLoad, StackStore});
    f.(insts := RenumberInsts(f, {StackLoad, StackStore}, used, |f.stackSlots|), stackSlots := Keep(f.stackSlots, used))
  }

  predicate OnlySimpleGlobals(f: Func) {
    forall g :: g in f.globals ==> g.VMContext? || g.Symbol?
  }

  function CompactGlobals(f: Func): Func {
    var used := UsedBy(f, {UnaryGlobalValue});
    f.(insts := RenumberInsts(f, {UnaryGlobalValue}, used, |f.globals|), globals := Keep(f.globals, used))
  }

  function MutateEntities(kind: nat, f: Func): Step {
    if kind > 3 || (kind == 3 && !OnlySimpleGlobals(f)) then Step(RemoveUnusedEntities(kind), Done)
    else
      var g := match kind
        case 0 => CompactExtFuncs(f)
        case 1 => CompactSignatures(f)
        case 2 => CompactStackSlots(f)
        case _ => CompactGlobals(f);
      Step(RemoveUnusedEntities(kind + 1), Mutated(g, Changed))
  }

  // ----- Merge a block into its predecessor -----

  /** Makes every parameter an alias of the value passed for it. */
  function AliasParams(aliases: map<Value, Value>, params: seq<Value>, args: seq<BlockArg>): Fallible<map<Value, Value>>
    requires |params| == |args|
    decreases |params|
  {
    if params == [] then Ok(aliases)
    else if args[0].ValueArg? && params[0] != args[0].value then
      var r := Root(aliases, args[0].value);
      if r == params[0] then Err(AliasLoop)
      else AliasParams(aliases[params[0] := r], params[1..], args[1..])
    else AliasParams(aliases, params[1..], args[1..])
  }

  /** The layout after the predecessor's branch is gone and the block's instructions follow in its place. */
  function MergedLayout(l: Layout, pred: Pred, b: Block): Layout {
    var l1 := Layouts.RemoveInst(l, pred.inst);
    match BlockIndex(l1, pred.block)
    case None => l1
    case Some(k) => Layouts.RemoveBlock(WithInsts(l1, k, l1[k].insts + InstsOf(l1, b)), b)
  }

  function MutateMergeBlocks(block: Block, prev: Option<Block>, f: Func): Step {
    match NextBlock(f.layout, block)
    case None => Step(MergeBlocks(block, prev), Done)
    case Some(b) =>
      var skip := Step(MergeBlocks(b, prev), Mutated(f, Skip));
      var preds := Preds(f, b);
      if |preds| != 1 then skip
      else
        var pred := preds[0];
        var dests := Data(f.insts, pred.inst).dests;
        if |dests| != 1 then skip
        else
          var ps := ParamsOf(f.params, b);
          var stuck := MergeBlocks(b, prev);
          if |ps| != |dests[0].args| then Step(stuck, Faulted(ArityMismatch))
          else match AliasParams(f.aliases, ps, dests[0].args)
            case Err(e) => Step(stuck, Faulted(e))
            case Ok(aliases) =>
              // a block that is its own predecessor is moved behind itself for ever
              if pred.block == b && InstsOf(Layouts.RemoveInst(f.layout, pred.inst), b) != []
              then Step(stuck, Faulted(SelfMerge))
              else
                var g := f.(aliases := aliases, params := f.params[b := []], layout := MergedLayout(f.layout, pred, b));
                Step(MergeBlocks(b, Some(pred.block)), Mutated(g, ExpandedOrShrinked))
  }

  // ----- All of them -----

  function Mutate(m: Mutator, f: Func): Step {
    match m
    case RemoveInst(b, i) => MutateRemoveInst(b, i, f)
    case ReplaceInstWithConst(b, i) => MutateReplaceInstWithConst(b, i, f)
    case ReplaceInstWithTrap(b, i) => MutateReplaceInstWithTrap(b, i, f)
    case MoveInstToEntryBlock(b, i) => MutateMoveInst(b, i, f)
    case RemoveBlock(b) => MutateRemoveBlock(b, f)
    case ReplaceBlockParamWithConst(b, r) => MutateReplaceParam(b, r, f)
    case RemoveUnusedEntities(k) => MutateEntities(k, f)
    case MergeBlocks(b, p) => MutateMergeBlocks(b, p, f)
  }

  /** `did_crash`: only the merger moves, back to the block it merged into. */
  function DidCrash(m: Mutator): Fallible<Mutator> {
    match m
    case MergeBlocks(b, p) => if p.None? then Err(NoPrevBlock) else Ok(MergeBlocks(p.value, p))
    case _ => Ok(m)
  }

  /** The mutator of a phase, at its starting position. */
  function NewMutator(phase: nat, f: Func): Fallible<Mutator>
    requires phase < 8
  {
    if phase == 6 then Ok(RemoveUnusedEntities(0))
    else match EntryBlock(f.layout)
      case None => Err(NoEntryBlock)
      case Some(entry) =>
        if phase == 4 then Ok(RemoveBlock(entry))
        else if phase == 5 then Ok(ReplaceBlockParamWithConst(entry, |ParamsOf(f.params, entry)|))
        else if phase == 7 then Ok(MergeBlocks(entry, None))
        else match FirstInst(f.layout, entry)
          case None => Err(NoInst)
          case Some(first) =>
            match phase
            case 0 => Ok(RemoveInst(entry, first))
            case 1 => Ok(ReplaceInstWithConst(entry, first))
            case 2 => Ok(ReplaceInstWithTrap(entry, first))
            case _ => Ok(MoveInstToEntryBlock(entry, first))
  }
}
