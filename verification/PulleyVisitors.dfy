/**
  Visitors of a bytecode stream.  A visitor is a state that holds a stream, with the callbacks that the
  decoder makes as functions of that state.
 */
module PulleyVisitors {
  import opened Bits
  import opened PulleyOps
  import opened PulleyDecode

  datatype Visitor<!V, !R> = Visitor(
    stream: V -> Stream,
    put: (V, Stream) -> V,
    before: V -> V,
    visit: (V, Op) -> (V, R),
    after: V -> V)

  datatype Visited<V, R> = Visited(visitor: V, result: Decoded<R>)

  // ----- Decoding with a visitor -----

  /** `decode_one`: the callbacks of one operation, around the reads that move the visitor's stream. */
  function VisitOne<V, R>(t: OpTable, vis: Visitor<V, R>, v: V): Visited<V, R> {
    var before := vis.before(v);
    var r := DecodeOne(t, vis.stream(before));
    var moved := vis.put(before, r.stream);
    match r.result
    case Err(e) => Visited(moved, Err(e))
    case Ok(op) =>
      var (visited, ret) := vis.visit(moved, op);
      Visited(vis.after(visited), Ok(ret))
  }

  /** The callbacks never move the stream back, and the two around an operation leave it. */
  ghost predicate Forward<V(!new), R>(vis: Visitor<V, R>) {
    && (forall v, s :: vis.stream(vis.put(v, s)) == s)
    && (forall v :: vis.stream(vis.before(v)) == vis.stream(v))
    && (forall v :: vis.stream(vis.after(v)) == vis.stream(v))
    && (forall v, op :: vis.stream(v).Safe? ==> Moved(vis.stream(v), vis.stream(vis.visit(v, op).0)))
  }

  lemma {:induction false} VisitMoves<V(!new), R>(t: OpTable, vis: Visitor<V, R>, v: V)
    requires Forward(vis) && vis.stream(v).Safe?
    ensures Moved(vis.stream(v), vis.stream(VisitOne(t, vis, v).visitor))
    ensures vis.stream(v).bytecode != [] ==> vis.stream(VisitOne(t, vis, v).visitor).position > vis.stream(v).position
  {
    hide DecodeOne;
    var before := vis.before(v);
    OneMoves(t, vis.stream(before));
    var r := DecodeOne(t, vis.stream(before));
    var moved := vis.put(before, r.stream);
    if r.result.Ok? {
      MovedTwice(vis.stream(v), r.stream, vis.stream(vis.visit(moved, r.result.value).0));
    }
  }

  /** `decode_all`: until the slice is empty or an operation cannot be decoded. */
  ghost function VisitAll<V(!new), R>(t: OpTable, vis: Visitor<V, R>, v: V): Visited<V, seq<R>>
    requires Forward(vis) && vis.stream(v).Safe?
    decreases |vis.stream(v).bytecode|
  {
    if vis.stream(v).bytecode == [] then Visited(v, Ok([]))
    else
      VisitMoves(t, vis, v);
      var one := VisitOne(t, vis, v);
      match one.result
      case Err(e) => Visited(one.visitor, Err(e))
      case Ok(ret) =>
        var rest := VisitAll(t, vis, one.visitor);
        match rest.result
        case Err(e) => Visited(rest.visitor, Err(e))
        case Ok(rets) => Visited(rest.visitor, Ok([ret] + rets))
  }

  lemma VisitAllUnroll<V(!new), R>(t: OpTable, vis: Visitor<V, R>, v: V)
    requires Forward(vis) && vis.stream(v).Safe?
    ensures vis.stream(v).bytecode == [] ==> VisitAll(t, vis, v) == Visited(v, Ok([]))
    ensures vis.stream(v).bytecode != [] ==>
              var one := VisitOne(t, vis, v);
              && Moved(vis.stream(v), vis.stream(one.visitor))
              && vis.stream(one.visitor).position > vis.stream(v).position
              && VisitAll(t, vis, v) ==
                 match one.result
                 case Err(e) => Visited(one.visitor, Err(e))
                 case Ok(ret) =>
                   var rest := VisitAll(t, vis, one.visitor);
                   Visited(rest.visitor, Prepend([ret], rest.result))
  {
    hide VisitOne;
    if vis.stream(v).bytecode != [] {
      VisitMoves(t, vis, v);
    }
  }

  function Prepend<R>(done: seq<R>, r: Decoded<seq<R>>): Decoded<seq<R>> {
    match r case Err(e) => Err(e) case Ok(rets) => Ok(done + rets)
  }

  /** The loop of `decode_all`, which pushes one result for each operation. */
  method DecodeAllLoop<V(!new), R>(t: OpTable, vis: Visitor<V, R>, v0: V) returns (v: V, r: Decoded<seq<R>>)
    requires Forward(vis) && vis.stream(v0).Safe?
    ensures Visited(v, r) == VisitAll(t, vis, v0)
  {
    v := v0;
    var results: seq<R> := [];
    ghost var all := VisitAll(t, vis, v0).result;
    assert all.Ok? ==> [] + all.value == all.value;
    while vis.stream(v).bytecode != []
      invariant vis.stream(v).Safe?
      invariant VisitAll(t, vis, v0).visitor == VisitAll(t, vis, v).visitor
      invariant VisitAll(t, vis, v0).result == Prepend(results, VisitAll(t, vis, v).result)
      decreases |vis.stream(v).bytecode|
    {
      VisitMoves(t, vis, v);
      var one := VisitOne(t, vis, v);
      v := one.visitor;
      match one.result
      case Err(e) => return v, Err(e);
      case Ok(ret) =>
        ghost var rest := VisitAll(t, vis, v).result;
        if rest.Ok? {
          assert results + ([ret] + rest.value) == results + [ret] + rest.value;
        }
        results := results + [ret];
    }
    assert results + [] == results;
    r := Ok(results);
  }

  // ----- Materializing operations -----

  /** The visitor that is nothing but its stream and returns each operation. */
  function Materialize(): Visitor<Stream, Op> {
    Visitor((s: Stream) => s, (s: Stream, s': Stream) => s', (s: Stream) => s, (s: Stream, op: Op) => (s, op), (s: Stream) => s)
  }

  lemma MaterializeForward()
    ensures Forward(Materialize())
  {
    var vis := Materialize();
    forall s: Stream, op: Op | vis.stream(s).Safe? ensures Moved(vis.stream(s), vis.stream(vis.visit(s, op).0)) {
      assert s.bytecode[0..] == s.bytecode;
    }
  }

  lemma {:induction false} MaterializeIsDecodeAll(t: OpTable, s: Stream)
    requires s.Safe?
    ensures Forward(Materialize())
    ensures VisitAll(t, Materialize(), s).result == DecodeAll(t, s)
    decreases |s.bytecode|
  {
    MaterializeForward();
    hide DecodeOne, Forward;
    if s.bytecode != [] {
      OneMoves(t, s);
      assert VisitOne(t, Materialize(), s) == Visited(DecodeOne(t, s).stream, DecodeOne(t, s).result);
      MaterializeIsDecodeAll(t, DecodeOne(t, s).stream);
    }
  }

  // ----- Two visitors at once -----

  /**
    One visitor and then another.  Reads move the first one's stream; the second one's is overwritten
    after each operation.
   */
  function Sequenced<V, W, A, B, T>(vis: Visitor<V, A>, wis: Visitor<W, B>, join: (A, B) -> T): Visitor<(V, W), T> {
    Visitor(
      (p: (V, W)) => vis.stream(p.0),
      (p: (V, W), s: Stream) => (vis.put(p.0, s), p.1),
      (p: (V, W)) => (vis.before(p.0), wis.before(p.1)),
      (p: (V, W), op: Op) =>
        var (v, a) := vis.visit(p.0, op);
        var (w, b) := wis.visit(p.1, op);
        ((v, w), join(a, b)),
      (p: (V, W)) => (vis.after(p.0), wis.after(wis.put(p.1, vis.stream(p.0)))))
  }

  /** No callback moves the stream. */
  ghost predicate Still<V(!new), R>(vis: Visitor<V, R>) {
    && (forall v, s :: vis.stream(vis.put(v, s)) == s)
    && (forall v :: vis.stream(vis.before(v)) == vis.stream(v))
    && (forall v :: vis.stream(vis.after(v)) == vis.stream(v))
    && (forall v, op :: vis.stream(vis.visit(v, op).0) == vis.stream(v))
  }

  /**
    At the next operation, the callback gives the same result from where the operation starts as from where it
    ends and, once the stream is brought up to date and the operation is over, the same state.
   */
  ghost predicate SameAtNext<V, R>(t: OpTable, vis: Visitor<V, R>, v: V) {
    var before := vis.before(v);
    var r := DecodeOne(t, vis.stream(before));
    r.result.Ok? ==>
      var (early, a) := vis.visit(before, r.result.value);
      var (late, b) := vis.visit(vis.put(before, r.stream), r.result.value);
      a == b && vis.after(vis.put(early, r.stream)) == vis.after(late)
  }

  /** `decode_one` so many times, up to the first failure. */
  function VisitMany<V, R>(t: OpTable, vis: Visitor<V, R>, v: V, n: nat): Visited<V, seq<R>>
    decreases n
  {
    if n == 0 then Visited(v, Ok([]))
    else
      var one := VisitOne(t, vis, v);
      match one.result
      case Err(e) => Visited(one.visitor, Err(e))
      case Ok(ret) =>
        var rest := VisitMany(t, vis, one.visitor, n - 1);
        Visited(rest.visitor, Prepend([ret], rest.result))
  }

  /** So it is at every operation that the visitor comes to on its own. */
  ghost predicate SameThroughout<V(!new), R>(t: OpTable, vis: Visitor<V, R>, v: V) {
    forall n: nat :: SameAfter(t, vis, v, n)
  }

  ghost predicate SameAfter<V, R>(t: OpTable, vis: Visitor<V, R>, v: V, n: nat) {
    var run := VisitMany(t, vis, v, n);
    run.result.Ok? ==> SameAtNext(t, vis, run.visitor)
  }

  lemma StillForward<V(!new), R>(vis: Visitor<V, R>)
    requires Still(vis)
    ensures Forward(vis)
  {
    forall v, op | vis.stream(v).Safe? ensures Moved(vis.stream(v), vis.stream(vis.visit(v, op).0)) {
      assert vis.stream(v).bytecode[0..] == vis.stream(v).bytecode;
    }
  }

  lemma SequencedStill<V(!new), W(!new), A, B, T>(vis: Visitor<V, A>, wis: Visitor<W, B>, join: (A, B) -> T)
    requires Still(vis)
    ensures Still(Sequenced(vis, wis, join))
  {
    var both := Sequenced(vis, wis, join);
    forall p: (V, W) ensures both.stream(both.before(p)) == both.stream(p) && both.stream(both.after(p)) == both.stream(p) {
      assert both.before(p).0 == vis.before(p.0) && both.after(p).0 == vis.after(p.0);
    }
    forall p: (V, W), op: Op ensures both.stream(both.visit(p, op).0) == both.stream(p) {
      assert both.visit(p, op).0.0 == vis.visit(p.0, op).0;
    }
  }

  /** What one operation does to the two visitors together, whatever the second one does. */
  lemma {:induction false} SequencedOne<V(!new), W(!new), A, B, T>(
    t: OpTable, vis: Visitor<V, A>, wis: Visitor<W, B>, join: (A, B) -> T, v: V, w: W)
    requires Still(vis) && Still(wis) && vis.stream(v) == wis.stream(w)
    ensures var both, one, other := VisitOne(t, Sequenced(vis, wis, join), (v, w)), VisitOne(t, vis, v), VisitOne(t, wis, w);
            && both.visitor.0 == one.visitor
            && vis.stream(one.visitor) == wis.stream(other.visitor)
            && (one.result.Ok? <==> other.result.Ok?) && (one.result.Ok? <==> both.result.Ok?)
            && (one.result.Ok? && SameAtNext(t, wis, w) ==>
                  both == Visited((one.visitor, other.visitor), Ok(join(one.result.value, other.result.value))))
            && (one.result.Err? ==>
                  && both.result == Err(one.result.error) && other.result == Err(one.result.error)
                  && wis.put(both.visitor.1, wis.stream(other.visitor)) == other.visitor)
  {
    hide DecodeOne;
  }

  /** And if the results are paired, then the second visitor ends as alone only if it is the same. */
  lemma {:induction false} SequencedOneNeeds<V(!new), W(!new), A, B>(t: OpTable, vis: Visitor<V, A>, wis: Visitor<W, B>, v: V, w: W)
    requires Still(vis) && Still(wis) && vis.stream(v) == wis.stream(w) && VisitOne(t, vis, v).result.Ok?
    requires var both, one, other := VisitOne(t, Sequenced(vis, wis, Pair), (v, w)), VisitOne(t, vis, v), VisitOne(t, wis, w);
             && other.result.Ok?
             && both == Visited((one.visitor, other.visitor), Ok((one.result.value, other.result.value)))
    ensures SameAtNext(t, wis, w)
  {
    hide DecodeOne;
  }

  function Pair<A, B>(a: A, b: B): (A, B) {
    (a, b)
  }

  /** The results are the pointwise join. */
  ghost predicate Joined<A, B, T>(join: (A, B) -> T, a: seq<A>, b: seq<B>, both: seq<T>) {
    |a| == |b| == |both| && forall k :: 0 <= k < |both| ==> both[k] == join(a[k], b[k])
  }

  /** Run together, the visitors end as alone; a failure leaves the second one's stream behind, and nothing else. */
  ghost predicate Together<V, W, A, B, T>(
    wis: Visitor<W, B>, join: (A, B) -> T, one: Visited<V, seq<A>>, other: Visited<W, seq<B>>, both: Visited<(V, W), seq<T>>)
  {
    && both.visitor.0 == one.visitor
    && (one.result.Ok? ==>
          && other.result.Ok? && both.result.Ok? && both.visitor.1 == other.visitor
          && Joined(join, one.result.value, other.result.value, both.result.value))
    && (one.result.Err? ==>
          && both.result == Err(one.result.error) && other.result == Err(one.result.error)
          && wis.put(both.visitor.1, wis.stream(other.visitor)) == other.visitor)
  }

  lemma TogetherStep<V, W, A, B, T>(
    wis: Visitor<W, B>, join: (A, B) -> T, a: A, b: B, one: Visited<V, seq<A>>, other: Visited<W, seq<B>>, both: Visited<(V, W), seq<T>>)
    requires Together(wis, join, one, other, both)
    ensures Together(wis, join, Visited(one.visitor, Prepend([a], one.result)), Visited(other.visitor, Prepend([b], other.result)),
                     Visited(both.visitor, Prepend([join(a, b)], both.result)))
  {
  }

  lemma ManyUnroll<V, R>(t: OpTable, vis: Visitor<V, R>, v: V, n: nat)
    requires n > 0
    ensures var one := VisitOne(t, vis, v);
            && (one.result.Err? ==> VisitMany(t, vis, v, n) == Visited(one.visitor, Err(one.result.error)))
            && (one.result.Ok? ==>
                  var rest := VisitMany(t, vis, one.visitor, n - 1);
                  VisitMany(t, vis, v, n) == Visited(rest.visitor, Prepend([one.result.value], rest.result)))
  {
    hide VisitOne;
  }

  /** What is the same throughout a run is so throughout the rest of it. */
  lemma {:induction false} SameRest<V(!new), R>(t: OpTable, vis: Visitor<V, R>, v: V)
    requires SameThroughout(t, vis, v)
    ensures SameAtNext(t, vis, v)
    ensures VisitOne(t, vis, v).result.Ok? ==> SameThroughout(t, vis, VisitOne(t, vis, v).visitor)
  {
    hide VisitOne, SameAtNext;
    assert SameAfter(t, vis, v, 0);
    var one := VisitOne(t, vis, v);
    if one.result.Ok? {
      forall n: nat ensures SameAfter(t, vis, one.visitor, n) {
        assert SameAfter(t, vis, v, n + 1);
        ManyUnroll(t, vis, v, n + 1);
      }
    }
  }

  /** After any number of operations the two visitors are as they are alone. */
  lemma {:induction false} SequencedMany<V(!new), W(!new), A, B, T>(
    t: OpTable, vis: Visitor<V, A>, wis: Visitor<W, B>, join: (A, B) -> T, v: V, w: W, n: nat)
    requires Still(vis) && Still(wis) && vis.stream(v) == wis.stream(w) && SameThroughout(t, wis, w)
    ensures Together(wis, join, VisitMany(t, vis, v, n), VisitMany(t, wis, w, n), VisitMany(t, Sequenced(vis, wis, join), (v, w), n))
    decreases n
  {
    hide VisitOne, VisitMany, Still, Sequenced, Joined, SameThroughout, SameAtNext;
    var seqd := Sequenced(vis, wis, join);
    JoinedNone(join);
    if n == 0 {
      ManyNone(t, vis, v);
      ManyNone(t, wis, w);
      ManyNone(t, seqd, (v, w));
    } else {
      ManyUnroll(t, vis, v, n);
      ManyUnroll(t, wis, w, n);
      ManyUnroll(t, seqd, (v, w), n);
      SequencedOne(t, vis, wis, join, v, w);
      SameRest(t, wis, w);
      var one, other := VisitOne(t, vis, v), VisitOne(t, wis, w);
      if one.result.Ok? {
        var v', w' := one.visitor, other.visitor;
        SequencedMany(t, vis, wis, join, v', w', n - 1);
        TogetherStep(wis, join, one.result.value, other.result.value, VisitMany(t, vis, v', n - 1), VisitMany(t, wis, w', n - 1),
                     VisitMany(t, seqd, (v', w'), n - 1));
      }
    }
  }

  lemma ManyNone<V, R>(t: OpTable, vis: Visitor<V, R>, v: V)
    ensures VisitMany(t, vis, v, 0) == Visited(v, Ok([]))
  {
  }

  ghost predicate AlwaysTogether<V(!new), W(!new), A, B>(t: OpTable, vis: Visitor<V, A>, wis: Visitor<W, B>, v: V, w: W) {
    forall n: nat :: TogetherAfter(t, vis, wis, v, w, n)
  }

  ghost predicate TogetherAfter<V, W, A, B>(t: OpTable, vis: Visitor<V, A>, wis: Visitor<W, B>, v: V, w: W, n: nat) {
    Together(wis, Pair, VisitMany(t, vis, v, n), VisitMany(t, wis, w, n), VisitMany(t, Sequenced(vis, wis, Pair), (v, w), n))
  }

  lemma {:induction false} TogetherNeeds<V(!new), W(!new), A, B>(t: OpTable, vis: Visitor<V, A>, wis: Visitor<W, B>, v: V, w: W, n: nat)
    requires Still(vis) && Still(wis) && vis.stream(v) == wis.stream(w) && AlwaysTogether(t, vis, wis, v, w)
    ensures SameAfter(t, wis, w, n)
    decreases n
  {
    hide VisitOne, VisitMany, Still, Sequenced, SameAtNext, AlwaysTogether;
    var seqd := Sequenced(vis, wis, Pair);
    SequencedOne(t, vis, wis, Pair, v, w);
    var one, other, both := VisitOne(t, vis, v), VisitOne(t, wis, w), VisitOne(t, seqd, (v, w));
    FirstTogether(t, vis, wis, v, w);
    ManyNone(t, wis, w);
    if n > 0 {
      ManyUnroll(t, wis, w, n);
      if one.result.Ok? {
        RestTogether(t, vis, wis, v, w);
        TogetherNeeds(t, vis, wis, one.visitor, other.visitor, n - 1);
      }
    }
  }

  /** What the first operation tells. */
  lemma {:induction false} FirstTogether<V(!new), W(!new), A, B>(t: OpTable, vis: Visitor<V, A>, wis: Visitor<W, B>, v: V, w: W)
    requires Still(vis) && Still(wis) && vis.stream(v) == wis.stream(w) && AlwaysTogether(t, vis, wis, v, w)
    ensures SameAtNext(t, wis, w)
    ensures VisitOne(t, vis, v).result.Ok? ==>
              var one, other := VisitOne(t, vis, v), VisitOne(t, wis, w);
              other.result.Ok? &&
              VisitOne(t, Sequenced(vis, wis, Pair), (v, w)) == Visited((one.visitor, other.visitor), Ok((one.result.value, other.result.value)))
  {
    var seqd := Sequenced(vis, wis, Pair);
    SequencedOne(t, vis, wis, Pair, v, w);
    var one, other := VisitOne(t, vis, v), VisitOne(t, wis, w);
    if one.result.Ok? {
      hide VisitOne, Sequenced, SameAtNext;
      assert TogetherAfter(t, vis, wis, v, w, 1);
      OneIsMany(t, vis, v);
      OneIsMany(t, wis, w);
      OneIsMany(t, seqd, (v, w));
      var both := VisitOne(t, seqd, (v, w));
      assert [both.result.value][0] == Pair([one.result.value][0], [other.result.value][0]);
      assert both.visitor == (both.visitor.0, both.visitor.1);
      SequencedOneNeeds(t, vis, wis, v, w);
    } else {
      hide DecodeOne;
    }
  }

  lemma OneIsMany<V, R>(t: OpTable, vis: Visitor<V, R>, v: V)
    requires VisitOne(t, vis, v).result.Ok?
    ensures var one := VisitOne(t, vis, v); VisitMany(t, vis, v, 1) == Visited(one.visitor, Ok([one.result.value]))
  {
    hide VisitOne;
    ManyUnroll(t, vis, v, 1);
    var one := VisitOne(t, vis, v);
    ManyNone(t, vis, one.visitor);
    assert [one.result.value] + [] == [one.result.value];
  }

  lemma {:induction false} RestTogether<V(!new), W(!new), A, B>(t: OpTable, vis: Visitor<V, A>, wis: Visitor<W, B>, v: V, w: W)
    requires Still(vis) && Still(wis) && vis.stream(v) == wis.stream(w) && AlwaysTogether(t, vis, wis, v, w)
    requires VisitOne(t, vis, v).result.Ok?
    ensures AlwaysTogether(t, vis, wis, VisitOne(t, vis, v).visitor, VisitOne(t, wis, w).visitor)
  {
    hide VisitOne, VisitMany, Still, Sequenced, SameAtNext, Together;
    var seqd := Sequenced(vis, wis, Pair);
    FirstTogether(t, vis, wis, v, w);
    var one, other := VisitOne(t, vis, v), VisitOne(t, wis, w);
    var v', w' := one.visitor, other.visitor;
    forall n: nat ensures TogetherAfter(t, vis, wis, v', w', n) {
      assert TogetherAfter(t, vis, wis, v, w, n + 1);
      ManyUnroll(t, vis, v, n + 1);
      ManyUnroll(t, wis, w, n + 1);
      ManyUnroll(t, seqd, (v, w), n + 1);
      TogetherTail(wis, one.result.value, other.result.value, VisitMany(t, vis, v', n), VisitMany(t, wis, w', n), VisitMany(t, seqd, (v', w'), n));
    }
  }

  lemma TogetherTail<V, W, A, B>(
    wis: Visitor<W, B>, a: A, b: B, one: Visited<V, seq<A>>, other: Visited<W, seq<B>>, both: Visited<(V, W), seq<(A, B)>>)
    requires Together(wis, Pair, Visited(one.visitor, Prepend([a], one.result)), Visited(other.visitor, Prepend([b], other.result)),
                      Visited(both.visitor, Prepend([(a, b)], both.result)))
    ensures Together(wis, Pair, one, other, both)
  {
    if one.result.Ok? {
      var x, y, z := one.result.value, other.result.value, both.result.value;
      forall k | 0 <= k < |z| ensures z[k] == Pair(x[k], y[k]) {
        assert ([a] + x)[k + 1] == x[k] && ([b] + y)[k + 1] == y[k] && ([(a, b)] + z)[k + 1] == z[k];
      }
    }
  }

  /**
    Two visitors that do not move their streams, run together: after every number of operations each of them is
    as it is alone and the results are paired, exactly if at every operation that the second visitor comes to on
    its own its callback gives the same result and state from the start of the operation as from its end.
    Whether it holds does not depend on the first visitor.
   */
  lemma SequencedIff<V(!new), W(!new), A, B>(t: OpTable, vis: Visitor<V, A>, wis: Visitor<W, B>, v: V, w: W)
    requires Still(vis) && Still(wis) && vis.stream(v) == wis.stream(w)
    ensures AlwaysTogether(t, vis, wis, v, w) <==> SameThroughout(t, wis, w)
  {
    hide VisitMany, Together, Still, SameAtNext;
    if SameThroughout(t, wis, w) {
      forall n: nat ensures TogetherAfter(t, vis, wis, v, w, n) {
        SequencedMany(t, vis, wis, Pair, v, w, n);
      }
    }
    if AlwaysTogether(t, vis, wis, v, w) {
      forall n: nat ensures SameAfter(t, wis, w, n) {
        TogetherNeeds(t, vis, wis, v, w, n);
      }
    }
  }

  /**
    Over a whole program, each of two visitors run together ends as it does alone and the results are
    joined one by one.
   */
  lemma {:induction false} SequencedAll<V(!new), W(!new), A, B, T>(
    t: OpTable, vis: Visitor<V, A>, wis: Visitor<W, B>, join: (A, B) -> T, v: V, w: W)
    requires Still(vis) && Still(wis) && vis.stream(v) == wis.stream(w) && vis.stream(v).Safe? && SameThroughout(t, wis, w)
    ensures Forward(Sequenced(vis, wis, join)) && Forward(vis) && Forward(wis)
    ensures Sequenced(vis, wis, join).stream((v, w)) == vis.stream(v)
    ensures Together(wis, join, VisitAll(t, vis, v), VisitAll(t, wis, w), VisitAll(t, Sequenced(vis, wis, join), (v, w)))
    decreases |vis.stream(v).bytecode|
  {
    StillForward(vis);
    StillForward(wis);
    SequencedStill(vis, wis, join);
    StillForward(Sequenced(vis, wis, join));
    var seqd := Sequenced(vis, wis, join);
    assert seqd.stream((v, w)) == vis.stream(v);
    hide VisitOne, VisitAll, Still, Forward, Sequenced, Joined, SameThroughout, SameAtNext;
    VisitAllUnroll(t, vis, v);
    VisitAllUnroll(t, wis, w);
    VisitAllUnroll(t, seqd, (v, w));
    JoinedNone(join);
    if vis.stream(v).bytecode != [] {
      SequencedOne(t, vis, wis, join, v, w);
      SameRest(t, wis, w);
      var one, other := VisitOne(t, vis, v), VisitOne(t, wis, w);
      if one.result.Ok? {
        var v', w' := one.visitor, other.visitor;
        SequencedAll(t, vis, wis, join, v', w');
        TogetherStep(wis, join, one.result.value, other.result.value, VisitAll(t, vis, v'), VisitAll(t, wis, w'), VisitAll(t, seqd, (v', w')));
      }
    }
  }

  lemma JoinedNone<A, B, T>(join: (A, B) -> T)
    ensures Joined(join, [], [], [])
  {
  }

  /** A callback that never looks at the stream is the same throughout any run. */
  lemma BlindIsSame<V(!new), R>(t: OpTable, vis: Visitor<V, R>, v: V)
    requires Still(vis)
    requires forall u, s, op :: vis.visit(vis.put(u, s), op) == (vis.put(vis.visit(u, op).0, s), vis.visit(u, op).1)
    ensures SameThroughout(t, vis, v)
  {
    hide DecodeOne, VisitMany;
    forall n: nat ensures SameAfter(t, vis, v, n) {
      var u := VisitMany(t, vis, v, n).visitor;
      var r := DecodeOne(t, vis.stream(vis.before(u)));
      if r.result.Ok? {
        assert vis.visit(vis.put(vis.before(u), r.stream), r.result.value) ==
               (vis.put(vis.visit(vis.before(u), r.result.value).0, r.stream), vis.visit(vis.before(u), r.result.value).1);
      }
    }
  }

  /** A visitor that does not move its stream but returns its position. */
  function Positions(): Visitor<Stream, nat> {
    Visitor((s: Stream) => s, (s: Stream, s': Stream) => s', (s: Stream) => s,
            (s: Stream, op: Op) => (s, match s case Safe(_, p) => p case Raw(_, p) => p), (s: Stream) => s)
  }

  /** One operation without operands. */
  const Tiny := OpTable([[]], [[]])

  lemma TinyDecodes()
    ensures DecodeOne(Tiny, Safe([0], 0)) == Reading(Ok(Op(false, 0, [])), Safe([], 1))
  {
    var s := Safe([0], 0);
    assert Limit(1) == 256;
    assert s.bytecode[..1] == [0] && FromLe([0]) == 0;
    assert DecodeFields([], Safe([], 1)) == Reading(Ok([]), Safe([], 1));
  }

  /** Alone it returns where the operation ends, second in a sequence where the operation starts. */
  lemma SecondVisitorLagsBehind()
    ensures var s := Safe([0], 0);
            && Still(Positions()) && !SameAtNext(Tiny, Positions(), s)
            && VisitOne(Tiny, Positions(), s).result == Ok(1)
            && VisitOne(Tiny, Sequenced(Materialize(), Positions(), (op: Op, p: nat) => p), (s, s)).result == Ok(0)
  {
    hide DecodeOne;
    TinyDecodes();
  }
}
