/**
  Attribution when nothing is known of the functions: they may overlap and be empty.  A sample goes to the
  last function that starts at or below it, or nowhere.
 */
module ProfilerAny {
  import opened Options
  import opened Bits
  import opened Profile
  import opened Profiler

  /** No function starts between `k` and `pc`, and the body at `k` reaches over `pc` and ends below 2^64. */
  ghost predicate Charged(functions: map<nat, Func>, pc: nat, k: nat) {
    && k in functions && k <= pc < k + |functions[k].body| < Limit(8)
    && forall j :: k < j <= pc ==> j !in functions
  }

  ghost predicate Chargeable(functions: map<nat, Func>, pc: nat) {
    exists k :: Charged(functions, pc, k)
  }

  function AfterHit(t: Tally, pc: nat, k: nat): Outcome
    requires k in t.functions && k <= pc
  {
    Fine(Tally(t.functions[k := Hit(t.functions[k], pc - k)], t.total + 1))
  }

  lemma FloorIs(functions: map<nat, Func>, pc: nat, k: nat)
    requires k in functions && k <= pc && forall j :: k < j <= pc ==> j !in functions
    ensures Floor(functions, pc) == Some(k)
  {
    hide Floor;
    var r := Floor(functions, pc);
    assert r.Some? ==> r.value == k;
  }

  lemma ChargeHits(t: Tally, pc: nat, k: nat)
    requires TallyOk(t) && Charged(t.functions, pc, k) && t.total < MaxTotal
    ensures Charge(t, pc) == AfterHit(t, pc, k)
  {
    hide SumCounts, SumHits, Limit, FuncOk, Floor;
    ChargeKeeps(t, pc);
    FloorIs(t.functions, pc, k);
    assert FuncOk(k, t.functions[k]);
    FuncFits(k, t.functions[k]);
  }

  /** A sample is counted exactly if it is in the last function that starts at or below it and the total has room. */
  lemma {:induction false} ChargeIffAny(t: Tally, pc: nat)
    requires TallyOk(t)
    ensures Charge(t, pc).Fine? <==> Chargeable(t.functions, pc) && t.total < MaxTotal
  {
    if Chargeable(t.functions, pc) && t.total < MaxTotal {
      var k :| Charged(t.functions, pc, k);
      ChargeHits(t, pc, k);
    }
    if Charge(t, pc).Fine? {
      hide SumCounts, SumHits, Limit, FuncOk;
      var k := Floor(t.functions, pc).value;
      assert FuncOk(k, t.functions[k]);
      FuncFits(k, t.functions[k]);
      assert Charged(t.functions, pc, k);
    }
  }

  /** A sample inside a function is charged to it exactly if no other starts between that one's start and the sample. */
  lemma {:induction false} ChargedToIff(t: Tally, pc: nat, k: nat)
    requires TallyOk(t) && t.total < MaxTotal && k in t.functions
    requires Contains(t.functions[k], pc) && k + |t.functions[k].body| < Limit(8)
    ensures k <= pc
    ensures Charge(t, pc) == AfterHit(t, pc, k) <==> forall j :: k < j <= pc ==> j !in t.functions
  {
    hide SumCounts, SumHits, Limit, FuncOk;
    var f := t.functions[k];
    assert FuncOk(k, f);
    FuncFits(k, f);
    if forall j :: k < j <= pc ==> j !in t.functions {
      ChargeHits(t, pc, k);
    }
    if Charge(t, pc) == AfterHit(t, pc, k) {
      var j := Floor(t.functions, pc).value;
      assert t.functions[k := Hit(f, pc - k)][k].hits == f.hits + 1;
    }
  }

  // ----- Whole profiles -----

  lemma SameChargeable(a: map<nat, Func>, b: map<nat, Func>, pc: nat)
    requires SameBodies(a, b)
    ensures Chargeable(a, pc) <==> Chargeable(b, pc)
  {
    hide Limit;
    if k :| Charged(a, pc, k) {
      assert Charged(b, pc, k);
    }
    if k :| Charged(b, pc, k) {
      assert Charged(a, pc, k);
    }
  }

  /** Every function is new where it is recorded, and every sample can be charged to one recorded before it. */
  ghost predicate PlacedAny(functions: map<nat, Func>, es: seq<Event>)
    decreases |es|
  {
    es == [] ||
    (&& (es[0].Function? ==> es[0].addr !in functions)
     && (es[0].Samples? ==> AllChargeable(functions, es[0].pcs))
     && PlacedAny(Add(functions, es[0]), es[1..]))
  }

  ghost predicate AllChargeable(functions: map<nat, Func>, pcs: seq<nat>) {
    forall k :: 0 <= k < |pcs| ==> Chargeable(functions, pcs[k])
  }

  lemma {:induction false} SamePlacedAny(a: map<nat, Func>, b: map<nat, Func>, es: seq<Event>)
    requires SameBodies(a, b)
    ensures PlacedAny(a, es) <==> PlacedAny(b, es)
    decreases |es|
  {
    hide Chargeable, SameBodies, Disjoint;
    if es != [] {
      SameKeys(a, b, es[0]);
      SamePlacedAny(Add(a, es[0]), Add(b, es[0]), es[1..]);
      if es[0].Samples? {
        SameAllChargeable(a, b, es[0].pcs);
      }
    }
  }

  lemma SameAllChargeable(a: map<nat, Func>, b: map<nat, Func>, pcs: seq<nat>)
    requires SameBodies(a, b)
    ensures AllChargeable(a, pcs) <==> AllChargeable(b, pcs)
  {
    hide Chargeable, SameBodies;
    forall k | 0 <= k < |pcs| ensures Chargeable(a, pcs[k]) <==> Chargeable(b, pcs[k]) {
      SameChargeable(a, b, pcs[k]);
    }
  }

  lemma AllChargeableCons(functions: map<nat, Func>, pcs: seq<nat>)
    requires pcs != []
    ensures AllChargeable(functions, pcs) <==> Chargeable(functions, pcs[0]) && AllChargeable(functions, pcs[1..])
  {
    hide Chargeable;
    if Chargeable(functions, pcs[0]) && AllChargeable(functions, pcs[1..]) {
      forall k | 0 <= k < |pcs| ensures Chargeable(functions, pcs[k]) {
        assert k > 0 ==> pcs[k] == pcs[1..][k - 1];
      }
    }
  }

  lemma {:induction false} ChargeAllIffAny(t: Tally, pcs: seq<nat>)
    requires TallyOk(t)
    ensures ChargeAll(t, pcs).Fine? <==> AllChargeable(t.functions, pcs) && t.total + |pcs| <= MaxTotal
    ensures ChargeAll(t, pcs).Fine? ==>
              var t' := ChargeAll(t, pcs).tally;
              TallyOk(t') && SameBodies(t.functions, t'.functions) && t'.total == t.total + |pcs|
    decreases |pcs|
  {
    TotalFits(t);
    hide TallyOk, Charge, Chargeable, AllChargeable, Hit;
    if pcs == [] {
      NoneChargeable(t.functions);
    } else {
      ChargeIffAny(t, pcs[0]);
      ChargeKeeps(t, pcs[0]);
      AllChargeableCons(t.functions, pcs);
      if Charge(t, pcs[0]).Fine? {
        var t1 := Charge(t, pcs[0]).tally;
        ChargeBodies(t, pcs[0]);
        ChargeAllIffAny(t1, pcs[1..]);
        SameAllChargeable(t.functions, t1.functions, pcs[1..]);
      }
    }
  }

  lemma NoneChargeable(functions: map<nat, Func>)
    ensures AllChargeable(functions, [])
  {
  }

  /**
    Any profile is taken without a panic exactly if every function is new where it is recorded, every sample
    can be charged to a function recorded before it, and the samples are no more than the total can count.
   */
  lemma {:induction false} TakeAllIffAny(t: Tally, es: seq<Event>)
    requires TallyOk(t) && EventsOk(es)
    ensures TakeAll(t, es).Fine? <==> PlacedAny(t.functions, es) && t.total + |AllPcs(es)| <= MaxTotal
    decreases |es|
  {
    TotalFits(t);
    hide TallyOk, AllChargeable, Limit, Utf8, ChargeAll;
    if es != [] {
      assert EventOk(es[0]);
      match es[0] {
        case Function(addr, name, body) =>
          if addr !in t.functions {
            InsertKeeps(t, addr, name, body);
            TakeAllIffAny(Insert(t, addr, name, body).tally, es[1..]);
          }
        case Samples(pcs) =>
          ChargeAllIffAny(t, pcs);
          if ChargeAll(t, pcs).Fine? {
            var t1 := ChargeAll(t, pcs).tally;
            SamePlacedAny(t.functions, t1.functions, es[1..]);
            TakeAllIffAny(t1, es[1..]);
          }
      }
    }
  }

  // ----- What the counts mean -----

  /** The function and the offset that a sample is charged to. */
  function ChargeOf(functions: map<nat, Func>, pc: nat): (nat, nat) {
    match Floor(functions, pc) case None => (0, pc) case Some(k) => (k, pc - k)
  }

  function ChargesOf(functions: map<nat, Func>, pcs: seq<nat>): seq<(nat, nat)> {
    seq(|pcs|, i requires 0 <= i < |pcs| => ChargeOf(functions, pcs[i]))
  }

  /** Every charge of a profile, each by the functions recorded before it. */
  function Charges(functions: map<nat, Func>, es: seq<Event>): seq<(nat, nat)>
    decreases |es|
  {
    if es == [] then []
    else (if es[0].Samples? then ChargesOf(functions, es[0].pcs) else []) + Charges(Add(functions, es[0]), es[1..])
  }

  /** The count at an offset of a function is the number of charges to it. */
  ghost predicate CountsMatch(functions: map<nat, Func>, cs: multiset<(nat, nat)>) {
    && (forall c :: c in cs ==> c.0 in functions)
    && forall k, offset: nat :: k in functions ==> CountAt(functions[k].instructions, offset) == cs[(k, offset)]
  }

  lemma SameFloor(a: map<nat, Func>, b: map<nat, Func>, pc: nat)
    requires a.Keys == b.Keys
    ensures Floor(a, pc) == Floor(b, pc)
  {
    hide Floor;
    var r := Floor(a, pc);
    if r.Some? {
      FloorIs(b, pc, r.value);
    }
  }

  lemma {:induction false} SameCharges(a: map<nat, Func>, b: map<nat, Func>, es: seq<Event>)
    requires a.Keys == b.Keys
    ensures Charges(a, es) == Charges(b, es)
    decreases |es|
  {
    hide Floor;
    if es != [] {
      SameCharges(Add(a, es[0]), Add(b, es[0]), es[1..]);
      if es[0].Samples? {
        SameChargesOf(a, b, es[0].pcs);
      }
    }
  }

  lemma SameChargesOf(a: map<nat, Func>, b: map<nat, Func>, pcs: seq<nat>)
    requires a.Keys == b.Keys
    ensures ChargesOf(a, pcs) == ChargesOf(b, pcs)
  {
    hide Floor;
    forall i | 0 <= i < |pcs| ensures ChargeOf(a, pcs[i]) == ChargeOf(b, pcs[i]) {
      SameFloor(a, b, pcs[i]);
    }
  }

  lemma {:induction false} ChargeCounts(t: Tally, cs: multiset<(nat, nat)>, pc: nat)
    requires CountsMatch(t.functions, cs) && TallyOk(t) && Charge(t, pc).Fine?
    ensures CountsMatch(Charge(t, pc).tally.functions, cs + multiset{ChargeOf(t.functions, pc)})
  {
    hide SumCounts, SumHits, Limit, FuncOk, CountsMatch;
    var k := Floor(t.functions, pc).value;
    assert FuncOk(k, t.functions[k]);
    FuncFits(k, t.functions[k]);
    HitMatches(t.functions, cs, k, pc - k);
  }

  lemma HitMatches(functions: map<nat, Func>, cs: multiset<(nat, nat)>, k: nat, offset: nat)
    requires CountsMatch(functions, cs) && k in functions
    ensures CountsMatch(functions[k := Hit(functions[k], offset)], cs + multiset{(k, offset)})
  {
    var after := functions[k := Hit(functions[k], offset)];
    forall j, o: nat | j in after ensures CountAt(after[j].instructions, o) == (cs + multiset{(k, offset)})[(j, o)] {
      assert CountAt(functions[j].instructions, o) == cs[(j, o)];
    }
  }

  lemma {:induction false} ChargeAllCounts(t: Tally, cs: multiset<(nat, nat)>, pcs: seq<nat>)
    requires CountsMatch(t.functions, cs) && TallyOk(t) && ChargeAll(t, pcs).Fine?
    ensures CountsMatch(ChargeAll(t, pcs).tally.functions, cs + multiset(ChargesOf(t.functions, pcs)))
    decreases |pcs|
  {
    hide CountsMatch, TallyOk, Charge, ChargeOf, Hit;
    var all := ChargesOf(t.functions, pcs);
    if pcs == [] {
      assert cs + multiset(all) == cs;
    } else {
      var t1, c := Charge(t, pcs[0]).tally, ChargeOf(t.functions, pcs[0]);
      ChargeKeeps(t, pcs[0]);
      ChargeCounts(t, cs, pcs[0]);
      ChargeAllCounts(t1, cs + multiset{c}, pcs[1..]);
      SameChargesOf(t.functions, t1.functions, pcs[1..]);
      assert all == [c] + ChargesOf(t.functions, pcs[1..]);
      assert cs + multiset{c} + multiset(ChargesOf(t.functions, pcs[1..])) == cs + multiset(all);
    }
  }

  /** Whatever the functions are, each count of a profile that is taken is the number of charges to its place. */
  lemma {:induction false} TakeAllCounts(t: Tally, cs: multiset<(nat, nat)>, es: seq<Event>)
    requires CountsMatch(t.functions, cs) && TallyOk(t) && EventsOk(es) && TakeAll(t, es).Fine?
    ensures TallyOk(TakeAll(t, es).tally)
    ensures CountsMatch(TakeAll(t, es).tally.functions, cs + multiset(Charges(t.functions, es)))
    decreases |es|
  {
    hide CountsMatch, TallyOk, ChargeAll, ChargesOf, Limit, Utf8, AllChargeable;
    if es == [] {
      assert cs + multiset([]) == cs;
    } else {
      assert EventOk(es[0]);
      match es[0] {
        case Function(addr, name, body) =>
          var t1 := Insert(t, addr, name, body).tally;
          InsertKeeps(t, addr, name, body);
          InsertMatches(t.functions, cs, addr, t1.functions[addr]);
          TakeAllCounts(t1, cs, es[1..]);
          assert [] + Charges(t1.functions, es[1..]) == Charges(t1.functions, es[1..]);
        case Samples(pcs) =>
          var t1, first := ChargeAll(t, pcs).tally, ChargesOf(t.functions, pcs);
          ChargeAllIffAny(t, pcs);
          ChargeAllCounts(t, cs, pcs);
          TakeAllCounts(t1, cs + multiset(first), es[1..]);
          SameCharges(t.functions, t1.functions, es[1..]);
          assert cs + multiset(first) + multiset(Charges(t.functions, es[1..])) == cs + multiset(first + Charges(t.functions, es[1..]));
      }
    }
  }

  lemma InsertMatches(functions: map<nat, Func>, cs: multiset<(nat, nat)>, addr: nat, f: Func)
    requires CountsMatch(functions, cs) && addr !in functions && f.instructions == map[]
    ensures CountsMatch(functions[addr := f], cs)
  {
    forall offset: nat ensures cs[(addr, offset)] == 0 {
      assert (addr, offset).0 == addr;
    }
  }
}
