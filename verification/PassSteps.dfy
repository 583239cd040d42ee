/** The passes of a reduction, counted: which are run, and where each starts; and what a phase leaves of its attempts. */
module PassSteps {
  import opened Clif
  import opened Mutators
  import opened Reduction
  import opened Minimality

  /** Where pass number `k` starts if none stops the loop. */
  function StartOf(crash: Func -> bool, f: Func, k: nat): Func {
    if k == 0 then f
    else
      var r := RunPass(crash, StartOf(crash, f, k - 1), 0);
      if r.PhaseEnd? then r.func else StartOf(crash, f, k - 1)
  }

  /** All passes before number `k` end and change the size. */
  ghost predicate ShrinksUpTo(crash: Func -> bool, f: Func, k: nat) {
    forall j :: 0 <= j < k ==> var r := RunPass(crash, StartOf(crash, f, j), 0); r.PhaseEnd? && r.shrank
  }

  lemma {:induction false} StartLater(crash: Func -> bool, f: Func, k: nat)
    requires RunPass(crash, f, 0).PhaseEnd?
    ensures StartOf(crash, f, k + 1) == StartOf(crash, RunPass(crash, f, 0).func, k)
  {
    hide RunPass;
    if k > 0 {
      StartLater(crash, f, k - 1);
    }
  }

  lemma {:induction false} ShrinksLater(crash: Func -> bool, f: Func, k: nat)
    requires var r := RunPass(crash, f, 0); r.PhaseEnd? && r.shrank && ShrinksUpTo(crash, r.func, k)
    ensures ShrinksUpTo(crash, f, k + 1)
  {
    hide RunPass;
    forall j | 0 <= j < k + 1 ensures var r := RunPass(crash, StartOf(crash, f, j), 0); r.PhaseEnd? && r.shrank {
      if j > 0 {
        StartLater(crash, f, j - 1);
      }
    }
  }

  /**
    Of `n` passes the ones are run up to the first that keeps no change of size or breaks; each starts where the one
    before ended.
   */
  lemma {:induction false} PassesExactly(crash: Func -> bool, f: Func, n: nat) returns (k: nat)
    requires n > 0
    ensures k < n && ShrinksUpTo(crash, f, k)
    ensures var r, last := RunPasses(crash, f, n), RunPass(crash, StartOf(crash, f, k), 0);
            if last.PhaseBroken? then r == PassesBroken(last.fault, last.at)
            else r == Passes(last.func, StartOf(crash, f, k), !last.shrank) && (last.shrank ==> k + 1 == n)
    decreases n
  {
    hide RunPass;
    var r := RunPass(crash, f, 0);
    k := 0;
    if r.PhaseEnd? && r.shrank && n > 1 {
      k := PassesExactly(crash, r.func, n - 1);
      ShrinksLater(crash, f, k);
      StartLater(crash, f, k);
      k := k + 1;
    }
  }

  function Left(log: seq<Attempt>, f: Func): Func {
    if log == [] then f else After(log[|log| - 1])
  }

  /** A phase that ends leaves what its last attempt left. */
  lemma {:induction false} PhaseLeaves(crash: Func -> bool, m: Mutator, f: Func, tries: nat)
    requires RunPhase(crash, m, f, tries).PhaseEnd?
    ensures RunPhase(crash, m, f, tries).func == Left(PhaseLog(crash, m, f, tries), f)
    ensures RunPhase(crash, m, f, tries).shrank ==> exists j :: 0 <= j < |PhaseLog(crash, m, f, tries)| && PhaseLog(crash, m, f, tries)[j].kept
    decreases tries
  {
    hide Mutate, DidCrash;
    if tries > 0 {
      var s := Mutate(m, f);
      if s.outcome.Mutated? {
        var g := s.outcome.func;
        if s.outcome.status == Skip {
          PhaseLeaves(crash, s.next, f, tries - 1);
        } else {
          var a := Attempt(f, g, crash(g));
          var h := After(a);
          var next := if crash(g) then DidCrash(s.next).value else s.next;
          PhaseLeaves(crash, next, h, tries - 1);
          var rest, log := PhaseLog(crash, next, h, tries - 1), PhaseLog(crash, m, f, tries);
          assert log == [a] + rest;
          if RunPhase(crash, next, h, tries - 1).shrank {
            var j :| 0 <= j < |rest| && rest[j].kept;
            assert log[j + 1].kept;
          } else {
            assert log[0] == a;
          }
        }
      }
    }
  }
}
