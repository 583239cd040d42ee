/**
  Removing unused entities renumbers the used ones.  Every laid-out instruction of a tracked format
  refers to the same data as before, nothing unused is left, and doing it again changes nothing.
 */
module Entities {
  import opened Options
  import opened Layouts
  import opened Clif
  import opened Mutators

  function Lookup<T>(table: seq<T>, r: nat): Option<T> {
    if r < |table| then Some(table[r]) else None
  }

  // ----- Compacting one table -----

  lemma {:induction false} RankMonotone(used: set<nat>, a: nat, b: nat)
    requires a <= b
    ensures Rank(used, a) <= Rank(used, b) <= Rank(used, a) + b - a
    ensures a < b && a in used ==> Rank(used, a) < Rank(used, b)
  {
    if a < b {
      RankMonotone(used, a, b - 1);
    }
  }

  lemma {:induction false} KeepSize<T>(table: seq<T>, used: set<nat>)
    ensures |Keep(table, used)| == Rank(used, |table|)
  {
    if table != [] {
      KeepSize(table[..|table| - 1], used);
    }
  }

  /** A used entry is found at its rank. */
  lemma {:induction false} KeepAt<T>(table: seq<T>, used: set<nat>, r: nat)
    requires r in used && r < |table|
    ensures Rank(used, r) < |Keep(table, used)| && Keep(table, used)[Rank(used, r)] == table[r]
  {
    var n := |table| - 1;
    KeepSize(table[..n], used);
    if r < n {
      KeepAt(table[..n], used, r);
    }
  }

  /** Every entry that is kept is the rank of a used one. */
  lemma {:induction false} KeepFrom<T>(table: seq<T>, used: set<nat>, k: nat) returns (r: nat)
    requires k < |Keep(table, used)|
    ensures r in used && r < |table| && Rank(used, r) == k
  {
    var n := |table| - 1;
    KeepSize(table[..n], used);
    if k < |Keep(table[..n], used)| {
      r := KeepFrom(table[..n], used, k);
    } else {
      r := n;
    }
  }

  ghost predicate IsRank(used: set<nat>, n: nat, k: nat) {
    exists r :: r in used && r < n && Rank(used, r) == k
  }

  /** Compaction keeps exactly the used entries, in their order, and drops every other. */
  lemma KeepExactly<T>(table: seq<T>, used: set<nat>)
    ensures forall r :: r in used && r < |table| ==>
              Rank(used, r) < |Keep(table, used)| && Keep(table, used)[Rank(used, r)] == table[r]
    ensures forall r, s :: r in used && r < s ==> Rank(used, r) < Rank(used, s)
    ensures forall k: nat :: k < |Keep(table, used)| ==> IsRank(used, |table|, k)
  {
    forall r | r in used && r < |table|
      ensures Rank(used, r) < |Keep(table, used)| && Keep(table, used)[Rank(used, r)] == table[r]
    {
      KeepAt(table, used, r);
    }
    forall r, s | r in used && r < s ensures Rank(used, r) < Rank(used, s) {
      RankMonotone(used, r, s);
    }
    forall k: nat | k < |Keep(table, used)| ensures IsRank(used, |table|, k) {
      var r := KeepFrom(table, used, k);
    }
  }

  /** A reference means the same in the compacted table; one outside the table stays outside. */
  lemma {:induction false} RenumberLookup<T>(table: seq<T>, used: set<nat>, r: nat)
    requires r in used
    ensures Lookup(Keep(table, used), Renumber(used, |table|, r)) == Lookup(table, r)
  {
    if r < |table| {
      KeepAt(table, used, r);
    } else {
      KeepSize(table, used);
      RankMonotone(used, 0, |table|);
    }
  }

  // ----- What an instruction refers to -----

  /** A global value without the number of its base, or none where there is no such value. */
  datatype Node = Node(data: GlobalValueData) | Missing

  function BaseOf(g: GlobalValueData): Option<nat> {
    match g
    case Load(base) => Some(base)
    case IAddImm(base) => Some(base)
    case _ => None
  }

  function Baseless(g: GlobalValueData): GlobalValueData {
    match g
    case Load(_) => Load(0)
    case IAddImm(_) => IAddImm(0)
    case _ => g
  }

  /** A global value, its base, the base of that and so on; one that comes back to itself is followed `steps` times. */
  function ChainOf(globals: seq<GlobalValueData>, r: nat, steps: nat): seq<Node>
    decreases steps
  {
    if r >= |globals| then [Missing]
    else if steps == 0 || BaseOf(globals[r]).None? then [Node(Baseless(globals[r]))]
    else [Node(Baseless(globals[r]))] + ChainOf(globals, BaseOf(globals[r]).value, steps - 1)
  }

  datatype Meaning =
    | Callee(func: Option<(nat, Option<nat>)>)   // a function's name and signature
    | Signature(sig: Option<nat>)
    | Slot(slot: Option<nat>)
    | Global(chain: seq<Node>)
    | NoEntity

  function CalleeOf(f: Func, r: nat): Option<(nat, Option<nat>)> {
    match Lookup(f.extFuncs, r)
    case None => None
    case Some(e) => Some((e.name, Lookup(f.signatures, e.signature)))
  }

  function MeaningOf(f: Func, d: InstData): Meaning {
    match d.format
    case Call | FuncAddr | TryCall => Callee(CalleeOf(f, d.entity))
    case CallIndirect => Signature(Lookup(f.signatures, d.entity))
    case StackLoad | StackStore => Slot(Lookup(f.stackSlots, d.entity))
    case UnaryGlobalValue => Global(ChainOf(f.globals, d.entity, |f.globals|))
    case _ => NoEntity
  }

  /** The formats whose references the mutator follows; the other one with a function reference is `try_call`. */
  predicate Tracked(d: InstData) {
    !d.format.TryCall?
  }

  lemma UsedByIn(f: Func, formats: set<Format>, i: Inst)
    requires i in Flatten(f.layout) && Data(f.insts, i).format in formats
    ensures Data(f.insts, i).entity in UsedBy(f, formats)
  {
  }

  lemma RenumberInstsAt(f: Func, formats: set<Format>, used: set<nat>, n: nat, i: Inst)
    requires PlainFormat !in formats && i in Flatten(f.layout)
    ensures Data(RenumberInsts(f, formats, used, n), i) ==
            var d := Data(f.insts, i);
            if d.format in formats then d.(entity := Renumber(used, n, d.entity)) else d
  {
  }

  /** Each of the four compactions preserves what every tracked instruction refers to. */
  lemma {:induction false} CompactKeepsMeaning(f: Func, kind: nat, i: Inst)
    requires i in Flatten(f.layout) && Tracked(Data(f.insts, i))
    ensures var s := MutateEntities(kind, f);
            s.outcome.Mutated? ==> MeaningOf(s.outcome.func, Data(s.outcome.func.insts, i)) == MeaningOf(f, Data(f.insts, i))
  {
    hide Flatten, RenumberInsts, Renumber, Keep, UsedBy;
    match kind
    case 0 => ExtFuncsKeepMeaning(f, i);
    case 1 => SignaturesKeepMeaning(f, i);
    case 2 => StackSlotsKeepMeaning(f, i);
    case 3 => if OnlySimpleGlobals(f) { GlobalsKeepMeaning(f, i); }
    case _ =>
  }

  lemma {:induction false} ExtFuncsKeepMeaning(f: Func, i: Inst)
    requires i in Flatten(f.layout) && Tracked(Data(f.insts, i))
    ensures var g := CompactExtFuncs(f); MeaningOf(g, Data(g.insts, i)) == MeaningOf(f, Data(f.insts, i))
  {
    hide Flatten, RenumberInsts, Renumber, Keep, UsedBy, Lookup;
    var formats := {Call, FuncAddr};
    var used, d := UsedBy(f, formats), Data(f.insts, i);
    RenumberInstsAt(f, formats, used, |f.extFuncs|, i);
    if d.format in formats {
      UsedByIn(f, formats, i);
      RenumberLookup(f.extFuncs, used, d.entity);
    }
  }

  lemma {:induction false} SignaturesKeepCallees(f: Func, r: nat)
    ensures CalleeOf(CompactSignatures(f), r) == CalleeOf(f, r)
  {
    hide Flatten, RenumberInsts, Renumber, Keep, UsedBy;
    if r < |f.extFuncs| {
      assert f.extFuncs[r].signature in SignaturesUsed(f);
      RenumberLookup(f.signatures, SignaturesUsed(f), f.extFuncs[r].signature);
    }
  }

  lemma {:induction false} SignaturesKeepMeaning(f: Func, i: Inst)
    requires i in Flatten(f.layout)
    ensures var g := CompactSignatures(f); MeaningOf(g, Data(g.insts, i)) == MeaningOf(f, Data(f.insts, i))
  {
    hide Flatten, RenumberInsts, Renumber, Keep, UsedBy, CalleeOf, Lookup;
    var formats := {CallIndirect};
    var used, d, n := SignaturesUsed(f), Data(f.insts, i), |f.signatures|;
    RenumberInstsAt(f, formats, used, n, i);
    SignaturesKeepCallees(f, d.entity);
    if d.format in formats {
      UsedByIn(f, formats, i);
      RenumberLookup(f.signatures, used, d.entity);
    }
  }

  lemma {:induction false} StackSlotsKeepMeaning(f: Func, i: Inst)
    requires i in Flatten(f.layout)
    ensures var g := CompactStackSlots(f); MeaningOf(g, Data(g.insts, i)) == MeaningOf(f, Data(f.insts, i))
  {
    hide Flatten, RenumberInsts, Renumber, Keep, UsedBy, Lookup;
    var formats := {StackLoad, StackStore};
    var used, d := UsedBy(f, formats), Data(f.insts, i);
    RenumberInstsAt(f, formats, used, |f.stackSlots|, i);
    if d.format in formats {
      UsedByIn(f, formats, i);
      RenumberLookup(f.stackSlots, used, d.entity);
    }
  }

  /** Without bases a chain is one entry. */
  lemma SimpleChain(globals: seq<GlobalValueData>, r: nat, steps: nat)
    requires forall g :: g in globals ==> g.VMContext? || g.Symbol?
    ensures ChainOf(globals, r, steps) == [if r < |globals| then Node(globals[r]) else Missing]
  {
  }

  lemma {:induction false} KeptFrom<T>(table: seq<T>, used: set<nat>, x: T)
    requires x in Keep(table, used)
    ensures x in table
  {
    var n := |table| - 1;
    if x in Keep(table[..n], used) {
      KeptFrom(table[..n], used, x);
    }
  }

  lemma {:induction false} GlobalsKeepMeaning(f: Func, i: Inst)
    requires i in Flatten(f.layout) && OnlySimpleGlobals(f)
    ensures var g := CompactGlobals(f); MeaningOf(g, Data(g.insts, i)) == MeaningOf(f, Data(f.insts, i))
  {
    hide Flatten, RenumberInsts, Renumber, Keep, UsedBy, ChainOf;
    var formats := {UnaryGlobalValue};
    var used, d, g := UsedBy(f, formats), Data(f.insts, i), CompactGlobals(f);
    RenumberInstsAt(f, formats, used, |f.globals|, i);
    if d.format in formats {
      UsedByIn(f, formats, i);
      RenumberLookup(f.globals, used, d.entity);
      forall x | x in g.globals ensures x in f.globals {
        KeptFrom(f.globals, used, x);
      }
      SimpleChain(f.globals, d.entity, |f.globals|);
      SimpleChain(g.globals, Data(g.insts, i).entity, |g.globals|);
    }
  }

  /** The tables are compacted one after the other; global values only if none has a base or depends on the target. */
  lemma CompactsIff(f: Func, kind: nat)
    ensures var s := MutateEntities(kind, f);
            && (s.outcome.Mutated? <==>
                  kind < 3 || (kind == 3 && forall g :: g in f.globals ==> BaseOf(g).None? && g != DynScaleTargetConst))
            && (s.outcome.Mutated? ==> s.outcome.status == Changed && s.next == RemoveUnusedEntities(kind + 1))
            && (!s.outcome.Mutated? ==> s.outcome.Done?)
  {
    hide CompactExtFuncs, CompactSignatures, CompactStackSlots, CompactGlobals;
  }

  /** Which formats refer to the table of each compaction. */
  function FormatsOf(kind: nat): set<Format> {
    if kind == 0 then {Call, FuncAddr} else if kind == 1 then {CallIndirect}
    else if kind == 2 then {StackLoad, StackStore} else {UnaryGlobalValue}
  }

  /** The same function, with the same table under other numbers. */
  ghost predicate SameFunctions(a: seq<ExtFunc>, b: seq<ExtFunc>) {
    |b| == |a| && forall k :: 0 <= k < |a| ==> b[k].name == a[k].name
  }

  /**
    A compaction changes one table, which keeps exactly what is used, and the references to it; compacting signatures
    changes those in functions too.
   */
  lemma {:induction false} CompactsOnly(f: Func, kind: nat)
    requires MutateEntities(kind, f).outcome.Mutated?
    ensures var g := MutateEntities(kind, f).outcome.func;
            && (match kind
                case 0 => g == f.(insts := g.insts, extFuncs := g.extFuncs) && g.extFuncs == Keep(f.extFuncs, UsedBy(f, FormatsOf(0)))
                case 1 => g == f.(insts := g.insts, extFuncs := g.extFuncs, signatures := g.signatures)
                          && SameFunctions(f.extFuncs, g.extFuncs) && g.signatures == Keep(f.signatures, SignaturesUsed(f))
                case 2 => g == f.(insts := g.insts, stackSlots := g.stackSlots) && g.stackSlots == Keep(f.stackSlots, UsedBy(f, FormatsOf(2)))
                case _ => g == f.(insts := g.insts, globals := g.globals) && g.globals == Keep(f.globals, UsedBy(f, FormatsOf(3))))
            && forall i :: var d, e := Data(f.insts, i), Data(g.insts, i);
                 e == d.(entity := e.entity) && (i !in Flatten(f.layout) || d.format !in FormatsOf(kind) ==> e == d)
  {
    hide Flatten, Keep, UsedBy, SignaturesUsed, Renumber, OnlySimpleGlobals;
    match kind
    case 0 => OnlyTheseChange(f, {Call, FuncAddr}, UsedBy(f, {Call, FuncAddr}), |f.extFuncs|);
    case 1 => OnlyTheseChange(f, {CallIndirect}, SignaturesUsed(f), |f.signatures|);
    case 2 => OnlyTheseChange(f, {StackLoad, StackStore}, UsedBy(f, {StackLoad, StackStore}), |f.stackSlots|);
    case _ => OnlyTheseChange(f, {UnaryGlobalValue}, UsedBy(f, {UnaryGlobalValue}), |f.globals|);
  }

  lemma OnlyTheseChange(f: Func, formats: set<Format>, used: set<nat>, n: nat)
    ensures forall i :: var d, e := Data(f.insts, i), Data(RenumberInsts(f, formats, used, n), i);
              e == d.(entity := e.entity) && (i !in Flatten(f.layout) || d.format !in formats ==> e == d)
  {
    hide Flatten, Renumber;
  }

  // ----- Tables without gaps -----

  lemma {:induction false} RankAll(used: set<nat>, r: nat)
    requires forall j: nat :: j < r ==> j in used
    ensures Rank(used, r) == r
  {
    if r > 0 {
      RankAll(used, r - 1);
    }
  }

  lemma {:induction false} RankGap(used: set<nat>, r: nat)
    requires Rank(used, r) == r
    ensures forall j: nat :: j < r ==> j in used
  {
    if r > 0 {
      RankMonotone(used, 0, r - 1);
      RankGap(used, r - 1);
    }
  }

  // ----- Doing it again -----

  /** The references to a compacted table, as far as they are in it, are all its indices. */
  lemma {:induction false} RenumberedUses(used: set<nat>, n: nat)
    ensures var again := set r | r in used :: Renumber(used, n, r);
            forall k: nat :: k < Rank(used, n) ==> k in again
  {
    var again := set r | r in used :: Renumber(used, n, r);
    forall k: nat | k < Rank(used, n) ensures k in again {
      var r := RankInverse(used, n, k);
      assert Renumber(used, n, r) == k;
    }
  }

  lemma {:induction false} RankInverse(used: set<nat>, n: nat, k: nat) returns (r: nat)
    requires k < Rank(used, n)
    ensures r in used && r < n && Rank(used, r) == k
  {
    if k < Rank(used, n - 1) {
      r := RankInverse(used, n - 1, k);
    } else {
      r := n - 1;
    }
  }

  lemma {:induction false} KeepAll<T>(table: seq<T>, used: set<nat>)
    requires forall k: nat :: k < |table| ==> k in used
    ensures Keep(table, used) == table
  {
    if table != [] {
      KeepAll(table[..|table| - 1], used);
    }
  }

  /** Once compacted, a table and the references to it stay as they are. */
  lemma {:induction false} CompactTwice<T>(table: seq<T>, used: set<nat>)
    ensures var again := set r | r in used :: Renumber(used, |table|, r);
            var kept := Keep(table, used);
            && Keep(kept, again) == kept
            && forall r :: r in again ==> Renumber(again, |kept|, r) == r
  {
    var again := set r | r in used :: Renumber(used, |table|, r);
    var kept := Keep(table, used);
    KeepSize(table, used);
    RenumberedUses(used, |table|);
    KeepAll(kept, again);
    forall r | r in again ensures Renumber(again, |kept|, r) == r {
      if r < |kept| {
        RankAll(again, r);
      }
    }
  }

  lemma {:induction false} UsedByAfter(f: Func, g: Func, formats: set<Format>, used: set<nat>, n: nat)
    requires PlainFormat !in formats
    requires g.layout == f.layout && g.insts == RenumberInsts(f, formats, used, n)
    ensures UsedBy(g, formats) == set r | r in UsedBy(f, formats) :: Renumber(used, n, r)
  {
    hide Flatten, RenumberInsts, Renumber;
    var again := set r | r in UsedBy(f, formats) :: Renumber(used, n, r);
    forall i | i in Flatten(f.layout)
      ensures Data(g.insts, i).format == Data(f.insts, i).format
      ensures Data(f.insts, i).format in formats ==> Data(g.insts, i).entity == Renumber(used, n, Data(f.insts, i).entity)
    {
      RenumberInstsAt(f, formats, used, n, i);
    }
    forall r | r in again ensures r in UsedBy(g, formats) {
      var u :| u in UsedBy(f, formats) && r == Renumber(used, n, u);
      var i :| i in Flatten(f.layout) && Data(f.insts, i).format in formats && Data(f.insts, i).entity == u;
      assert Data(g.insts, i).entity == r;
    }
  }

  /** A table with one kind of user: the second compaction is the identity. */
  lemma {:induction false} RenumberTwice<T>(f: Func, g: Func, formats: set<Format>, table: seq<T>)
    requires PlainFormat !in formats
    requires g.layout == f.layout && g.insts == RenumberInsts(f, formats, UsedBy(f, formats), |table|)
    ensures var kept, again := Keep(table, UsedBy(f, formats)), UsedBy(g, formats);
            Keep(kept, again) == kept && RenumberInsts(g, formats, again, |kept|) == g.insts
  {
    hide Flatten, Keep, Renumber;
    var used := UsedBy(f, formats);
    UsedByAfter(f, g, formats, used, |table|);
    CompactTwice(table, used);
    var kept, again := Keep(table, used), UsedBy(g, formats);
    forall i | i in g.insts ensures RenumberInsts(g, formats, again, |kept|)[i] == g.insts[i] {
      if i in Flatten(g.layout) && g.insts[i].format in formats {
        assert g.insts[i].entity in again;
      }
    }
  }

  lemma CompactExtFuncsTwice(f: Func)
    ensures CompactExtFuncs(CompactExtFuncs(f)) == CompactExtFuncs(f)
  {
    RenumberTwice(f, CompactExtFuncs(f), {Call, FuncAddr}, f.extFuncs);
  }

  lemma CompactStackSlotsTwice(f: Func)
    ensures CompactStackSlots(CompactStackSlots(f)) == CompactStackSlots(f)
  {
    RenumberTwice(f, CompactStackSlots(f), {StackLoad, StackStore}, f.stackSlots);
  }

  lemma CompactGlobalsTwice(f: Func)
    ensures CompactGlobals(CompactGlobals(f)) == CompactGlobals(f)
  {
    RenumberTwice(f, CompactGlobals(f), {UnaryGlobalValue}, f.globals);
  }

  lemma {:induction false} SignaturesUsedAfter(f: Func)
    ensures var used := SignaturesUsed(f);
            SignaturesUsed(CompactSignatures(f)) == set r | r in used :: Renumber(used, |f.signatures|, r)
  {
    hide Flatten, RenumberInsts, Renumber, Keep;
    var used, n, g := SignaturesUsed(f), |f.signatures|, CompactSignatures(f);
    UsedByAfter(f, g, {CallIndirect}, used, n);
    var again := set r | r in used :: Renumber(used, n, r);
    hide UsedBy;
    forall r | r in SignaturesUsed(g) ensures r in again {
      if r !in UsedBy(g, {CallIndirect}) {
        var k :| 0 <= k < |g.extFuncs| && r == g.extFuncs[k].signature;
        assert f.extFuncs[k].signature in used;
      }
    }
    forall r | r in again ensures r in SignaturesUsed(g) {
      var u :| u in used && r == Renumber(used, n, u);
      if u !in UsedBy(f, {CallIndirect}) {
        var k :| 0 <= k < |f.extFuncs| && u == f.extFuncs[k].signature;
        assert g.extFuncs[k].signature == r;
      }
    }
  }

  lemma {:induction false} CompactSignaturesTwice(f: Func)
    ensures CompactSignatures(CompactSignatures(f)) == CompactSignatures(f)
  {
    hide Flatten, Renumber, Keep;
    var g := CompactSignatures(f);
    var h := CompactSignatures(g);
    SignaturesUsedAfter(f);
    CompactTwice(f.signatures, SignaturesUsed(f));
    forall i | i in g.insts ensures h.insts[i] == g.insts[i] {
      if i in Flatten(g.layout) && g.insts[i].format == CallIndirect {
        assert Data(g.insts, i).entity in SignaturesUsed(g);
      }
    }
    assert h.insts == g.insts;
    forall k | 0 <= k < |g.extFuncs| ensures h.extFuncs[k] == g.extFuncs[k] {
      assert g.extFuncs[k].signature in SignaturesUsed(g);
    }
  }

  // ----- All four, one after the other -----

  function CompactAll(f: Func): Func {
    var g := CompactStackSlots(CompactSignatures(CompactExtFuncs(f)));
    if OnlySimpleGlobals(g) then CompactGlobals(g) else g
  }

  lemma {:induction false} CompactKeepsFormats(f: Func, kind: nat)
    ensures var s := MutateEntities(kind, f);
            s.outcome.Mutated? ==>
              && s.outcome.func.layout == f.layout
              && forall i :: i in Flatten(f.layout) ==> Data(s.outcome.func.insts, i).format == Data(f.insts, i).format
  {
    hide Flatten, Renumber, Keep, UsedBy, SignaturesUsed;
  }

  lemma {:induction false} CompactStep(f: Func, kind: nat, i: Inst)
    requires kind <= 3 && (kind == 3 ==> OnlySimpleGlobals(f))
    requires i in Flatten(f.layout) && Tracked(Data(f.insts, i))
    ensures var g := MutateEntities(kind, f).outcome.func;
            && i in Flatten(g.layout) && Tracked(Data(g.insts, i))
            && MeaningOf(g, Data(g.insts, i)) == MeaningOf(f, Data(f.insts, i))
  {
    hide Flatten, RenumberInsts, Keep, UsedBy, MeaningOf;
    CompactKeepsFormats(f, kind);
    CompactKeepsMeaning(f, kind, i);
  }

  /** A whole phase in which everything is kept preserves what every tracked instruction refers to. */
  lemma CompactAllKeepsMeaning(f: Func, i: Inst)
    requires i in Flatten(f.layout) && Tracked(Data(f.insts, i))
    ensures var g := CompactAll(f); MeaningOf(g, Data(g.insts, i)) == MeaningOf(f, Data(f.insts, i))
  {
    hide Flatten, MeaningOf, CompactExtFuncs, CompactSignatures, CompactStackSlots, CompactGlobals, OnlySimpleGlobals;
    var f1 := CompactExtFuncs(f);
    CompactStep(f, 0, i);
    var f2 := CompactSignatures(f1);
    CompactStep(f1, 1, i);
    var f3 := CompactStackSlots(f2);
    CompactStep(f2, 2, i);
    if OnlySimpleGlobals(f3) {
      CompactStep(f3, 3, i);
    }
  }

  /** All entries of the four tables are used. */
  ghost predicate FullExtFuncs(f: Func) {
    forall r: nat :: r < |f.extFuncs| ==> r in UsedBy(f, {Call, FuncAddr})
  }

  ghost predicate FullSignatures(f: Func) {
    forall r: nat :: r < |f.signatures| ==> r in SignaturesUsed(f)
  }

  ghost predicate FullStackSlots(f: Func) {
    forall r: nat :: r < |f.stackSlots| ==> r in UsedBy(f, {StackLoad, StackStore})
  }

  ghost predicate FullGlobals(f: Func) {
    forall r: nat :: r < |f.globals| ==> r in UsedBy(f, {UnaryGlobalValue})
  }

  lemma {:induction false} FullStays<T>(f: Func, formats: set<Format>, table: seq<T>, used: set<nat>)
    requires forall r: nat :: r < |table| ==> r in used
    ensures Keep(table, used) == table && RenumberInsts(f, formats, used, |table|) == f.insts
    ensures forall r: nat :: Renumber(used, |table|, r) == r
  {
    KeepAll(table, used);
    forall r: nat ensures Renumber(used, |table|, r) == r {
      if r < |table| {
        RankAll(used, r);
      }
    }
    hide Keep, Renumber, Flatten;
  }

  /** Then compaction does nothing. */
  lemma {:induction false} FullFixed(f: Func)
    ensures FullExtFuncs(f) ==> CompactExtFuncs(f) == f
    ensures FullSignatures(f) ==> CompactSignatures(f) == f
    ensures FullStackSlots(f) ==> CompactStackSlots(f) == f
    ensures FullGlobals(f) ==> CompactGlobals(f) == f
  {
    hide Keep, Renumber, Flatten, UsedBy, RenumberInsts, SignaturesUsed;
    if FullExtFuncs(f) {
      FullStays(f, {Call, FuncAddr}, f.extFuncs, UsedBy(f, {Call, FuncAddr}));
    }
    if FullSignatures(f) {
      FullStays(f, {CallIndirect}, f.signatures, SignaturesUsed(f));
      assert CompactSignatures(f).extFuncs == f.extFuncs;
    }
    if FullStackSlots(f) {
      FullStays(f, {StackLoad, StackStore}, f.stackSlots, UsedBy(f, {StackLoad, StackStore}));
    }
    if FullGlobals(f) {
      FullStays(f, {UnaryGlobalValue}, f.globals, UsedBy(f, {UnaryGlobalValue}));
    }
  }

  lemma FixedFull<T>(table: seq<T>, used: set<nat>)
    requires Keep(table, used) == table
    ensures forall r: nat :: r < |table| ==> r in used
  {
    hide Keep, Rank;
    KeepSize(table, used);
    RankGap(used, |table|);
  }

  /** And after compaction all entries are used. */
  lemma {:induction false} CompactedFull(f: Func)
    ensures FullExtFuncs(CompactExtFuncs(f)) && FullSignatures(CompactSignatures(f))
    ensures FullStackSlots(CompactStackSlots(f)) && FullGlobals(CompactGlobals(f))
  {
    hide Keep, Renumber, Flatten, UsedBy, RenumberInsts, SignaturesUsed;
    CompactExtFuncsTwice(f);
    CompactSignaturesTwice(f);
    CompactStackSlotsTwice(f);
    CompactGlobalsTwice(f);
    var a, b, c, d := CompactExtFuncs(f), CompactSignatures(f), CompactStackSlots(f), CompactGlobals(f);
    FixedFull(a.extFuncs, UsedBy(a, {Call, FuncAddr}));
    FixedFull(b.signatures, SignaturesUsed(b));
    FixedFull(c.stackSlots, UsedBy(c, {StackLoad, StackStore}));
    FixedFull(d.globals, UsedBy(d, {UnaryGlobalValue}));
  }

  /** Renumbering references in some formats leaves those in others. */
  lemma OtherUses(f: Func, g: Func, formats: set<Format>, others: set<Format>, used: set<nat>, n: nat)
    requires g.insts == RenumberInsts(f, formats, used, n) && g.layout == f.layout && formats !! others
    ensures UsedBy(g, others) == UsedBy(f, others)
  {
    hide Flatten, Renumber;
    forall i | i in Flatten(f.layout)
      ensures Data(g.insts, i).format == Data(f.insts, i).format
      ensures Data(f.insts, i).format in others ==> Data(g.insts, i) == Data(f.insts, i)
    {
    }
  }

  lemma {:induction false} LaterCompactions(f: Func)
    ensures FullExtFuncs(f) ==>
              FullExtFuncs(CompactSignatures(f)) && FullExtFuncs(CompactStackSlots(f)) && FullExtFuncs(CompactGlobals(f))
    ensures FullSignatures(f) ==> FullSignatures(CompactStackSlots(f)) && FullSignatures(CompactGlobals(f))
    ensures FullStackSlots(f) ==> FullStackSlots(CompactGlobals(f))
  {
    var a, b, c := CompactSignatures(f), CompactStackSlots(f), CompactGlobals(f);
    OtherUses(f, a, {CallIndirect}, {Call, FuncAddr}, SignaturesUsed(f), |f.signatures|);
    OtherUses(f, b, {StackLoad, StackStore}, {Call, FuncAddr}, UsedBy(f, {StackLoad, StackStore}), |f.stackSlots|);
    OtherUses(f, b, {StackLoad, StackStore}, {CallIndirect}, UsedBy(f, {StackLoad, StackStore}), |f.stackSlots|);
    OtherUses(f, c, {UnaryGlobalValue}, {Call, FuncAddr}, UsedBy(f, {UnaryGlobalValue}), |f.globals|);
    OtherUses(f, c, {UnaryGlobalValue}, {CallIndirect}, UsedBy(f, {UnaryGlobalValue}), |f.globals|);
    OtherUses(f, c, {UnaryGlobalValue}, {StackLoad, StackStore}, UsedBy(f, {UnaryGlobalValue}), |f.globals|);
    hide Keep, Renumber, Flatten, UsedBy, RenumberInsts;
  }

  /** What a phase of compactions leaves is not compacted again. */
  lemma {:induction false} CompactAllFixed(f: Func, kind: nat)
    ensures var g := CompactAll(f); MutateEntities(kind, g).outcome.Mutated? ==> MutateEntities(kind, g).outcome.func == g
  {
    hide CompactExtFuncs, CompactSignatures, CompactStackSlots, CompactGlobals, OnlySimpleGlobals;
    hide FullExtFuncs, FullSignatures, FullStackSlots, FullGlobals;
    var a := CompactExtFuncs(f);
    var b := CompactSignatures(a);
    var c := CompactStackSlots(b);
    CompactedFull(f);
    LaterCompactions(a);
    CompactedFull(a);
    LaterCompactions(b);
    CompactedFull(b);
    LaterCompactions(c);
    CompactedFull(c);
    FullFixed(CompactAll(f));
  }
}
