/** The manifest of benchmark runs: what the run loop appends, and what its validation accepts. */
module Manifest {
  import opened Options
  import opened Schedule

  /** A path as its components. */
  type Path = seq<string>

  datatype Run = Run(workload: string, trial: int, state: string, order: int, population: bool, directory: Option<Path>, wallNs: int)

  datatype Metadata = Metadata(workloads: seq<string>, schedule: seq<Block>, trials: int)

  /** What identifies a run. */
  datatype Key = Key(workload: string, trial: int, state: string, order: int, population: bool)

  datatype ManifestError = InvalidSchedule | InvalidBlock | DuplicateTrials | BadDirectories | Inconsistent

  function KeyOf(r: Run): Key {
    Key(r.workload, r.trial, r.state, r.order, r.population)
  }

  function Keys(runs: seq<Run>): seq<Key> {
    seq(|runs|, i requires 0 <= i < |runs| => KeyOf(runs[i]))
  }

  function Directories(runs: seq<Run>): seq<Option<Path>> {
    seq(|runs|, i requires 0 <= i < |runs| => runs[i].directory)
  }

  ghost predicate Distinct<T(!new)>(s: seq<T>) {
    forall i, j :: 0 <= i < j < |s| ==> s[i] != s[j]
  }

  // ----- Validation -----

  /** A run that the metadata calls for: the population of a workload, or a state in its place in a trial. */
  ghost predicate Expected(m: Metadata, k: Key) {
    && k.workload in m.workloads
    && (|| k == Key(k.workload, 0, Cold, 0, true)
        || (&& 1 <= k.trial <= |m.schedule| && 1 <= k.order <= |m.schedule[k.trial - 1]|
            && k.state == m.schedule[k.trial - 1][k.order - 1] && !k.population))
  }

  ghost predicate GoodMetadata(m: Metadata) {
    && m.trials >= 1 && |m.schedule| == m.trials
    && (m.workloads == [] || forall t :: 0 <= t < |m.schedule| ==> ValidBlock(m.schedule[t]))
  }

  ghost predicate Accepted(m: Metadata, runs: seq<Run>) {
    && GoodMetadata(m)
    && Distinct(Keys(runs))
    && Distinct(Directories(runs)) && None !in Directories(runs)
    && forall k :: k in Keys(runs) <==> Expected(m, k)
  }

  /** The set has as many elements as the list exactly if nothing in the list is repeated. */
  lemma {:induction false} DistinctIff<T(!new)>(s: seq<T>)
    ensures |set x | x in s| <= |s|
    ensures Distinct(s) <==> |set x | x in s| == |s|
    decreases |s|
  {
    var all := set x | x in s;
    if s == [] {
      assert all == {};
    } else {
      var n := |s| - 1;
      var front, last := s[..n], s[n];
      var before := set x | x in front;
      DistinctIff(front);
      assert all == before + {last};
      DistinctSnoc(front, last);
      assert s == front + [last];
    }
  }

  lemma DistinctSnoc<T(!new)>(s: seq<T>, last: T)
    ensures Distinct(s + [last]) <==> Distinct(s) && last !in s
  {
    var all := s + [last];
    if Distinct(all) {
      forall i, j | 0 <= i < j < |s| ensures s[i] != s[j] {
        assert all[i] != all[j];
      }
      forall i | 0 <= i < |s| ensures s[i] != last {
        assert all[i] != all[|s|];
      }
    }
  }

  /** What the runs in one trial should be. */
  ghost predicate InTrial(m: Metadata, w: string, t: nat, n: nat, k: Key)
    requires t < |m.schedule| && n <= |m.schedule[t]|
  {
    exists o :: 0 <= o < n && k == Key(w, t + 1, m.schedule[t][o], o + 1, false)
  }

  ghost predicate InWorkload(m: Metadata, w: string, t: nat, k: Key)
    requires t <= |m.schedule|
  {
    k == Key(w, 0, Cold, 0, true) || exists j :: 0 <= j < t && InTrial(m, w, j, |m.schedule[j]|, k)
  }

  lemma WorkloadIsExpected(m: Metadata, k: Key)
    ensures Expected(m, k) <==> exists i :: 0 <= i < |m.workloads| && InWorkload(m, m.workloads[i], |m.schedule|, k)
  {
    if Expected(m, k) {
      var i :| 0 <= i < |m.workloads| && m.workloads[i] == k.workload;
      if !k.population {
        var t := k.trial - 1;
        assert k == Key(k.workload, t + 1, m.schedule[t][k.order - 1], (k.order - 1) + 1, false);
        assert InTrial(m, k.workload, t, |m.schedule[t]|, k);
      }
      assert InWorkload(m, m.workloads[i], |m.schedule|, k);
    }
    if i :| 0 <= i < |m.workloads| && InWorkload(m, m.workloads[i], |m.schedule|, k) {
      if j :| 0 <= j < |m.schedule| && InTrial(m, m.workloads[i], j, |m.schedule[j]|, k) {
        assert 1 <= k.trial <= |m.schedule|;
      }
    }
  }

  /** The runs of one workload, collected into `expected`; `ok` is false at a block that is not valid. */
  method ExpectWorkload(m: Metadata, w: string, expected: set<Key>) returns (ok: bool, r: set<Key>)
    ensures ok <==> forall t :: 0 <= t < |m.schedule| ==> ValidBlock(m.schedule[t])
    ensures ok ==> forall k :: k in r <==> k in expected || InWorkload(m, w, |m.schedule|, k)
  {
    hide ValidBlock;
    r := expected + {Key(w, 0, Cold, 0, true)};
    for t := 0 to |m.schedule|
      invariant forall j :: 0 <= j < t ==> ValidBlock(m.schedule[j])
      invariant forall k :: k in r <==> k in expected || InWorkload(m, w, t, k)
    {
      var states := m.schedule[t];
      BlockIsSet(states);
      if (set s | s in states) != {Disabled, Cold, Warm} {
        return false, r;
      }
      r := ExpectTrial(m, w, t, r);
      ExpectNext(m, w, t);
    }
    ok := true;
  }

  lemma ExpectNext(m: Metadata, w: string, t: nat)
    requires t < |m.schedule|
    ensures forall k :: InWorkload(m, w, t + 1, k) <==> InWorkload(m, w, t, k) || InTrial(m, w, t, |m.schedule[t]|, k)
  {
  }

  lemma BlockIsSet(b: Block)
    ensures (set s | s in b) == {Disabled, Cold, Warm} <==> ValidBlock(b)
  {
    var all := set s | s in b;
    assert forall s :: s in all <==> s in b;
    assert forall s :: s in States <==> s in {Disabled, Cold, Warm};
  }

  method ExpectTrial(m: Metadata, w: string, t: nat, expected: set<Key>) returns (r: set<Key>)
    requires t < |m.schedule|
    ensures forall k :: k in r <==> k in expected || InTrial(m, w, t, |m.schedule[t]|, k)
  {
    r := expected;
    for o := 0 to |m.schedule[t]|
      invariant forall k :: k in r <==> k in expected || InTrial(m, w, t, o, k)
    {
      r := r + {Key(w, t + 1, m.schedule[t][o], o + 1, false)};
    }
  }

  /** Validation as it is done: sets are collected and compared.  It succeeds exactly if the manifest is accepted. */
  method ValidateRunManifest(m: Metadata, runs: seq<Run>) returns (error: Option<ManifestError>)
    ensures error.None? <==> Accepted(m, runs)
    ensures error == Some(InvalidSchedule) <==> m.trials < 1 || |m.schedule| != m.trials
    ensures error == Some(InvalidBlock) <==> m.trials >= 1 && |m.schedule| == m.trials && !GoodMetadata(m)
    ensures error == Some(DuplicateTrials) <==> GoodMetadata(m) && !Distinct(Keys(runs))
    ensures error == Some(BadDirectories) <==>
            GoodMetadata(m) && Distinct(Keys(runs)) && (!Distinct(Directories(runs)) || None in Directories(runs))
  {
    if m.trials < 1 || |m.schedule| != m.trials {
      return Some(InvalidSchedule);
    }
    hide ValidBlock, Distinct, Expected, InWorkload;
    var expected: set<Key> := {};
    for i := 0 to |m.workloads|
      invariant i > 0 ==> forall t :: 0 <= t < |m.schedule| ==> ValidBlock(m.schedule[t])
      invariant forall k :: k in expected <==> exists j :: 0 <= j < i && InWorkload(m, m.workloads[j], |m.schedule|, k)
    {
      var ok;
      ok, expected := ExpectWorkload(m, m.workloads[i], expected);
      if !ok {
        return Some(InvalidBlock);
      }
    }
    forall k: Key ensures k in expected <==> Expected(m, k) {
      WorkloadIsExpected(m, k);
    }
    var actual, directories := Keys(runs), Directories(runs);
    var keys := set k | k in actual;
    DistinctIff(actual);
    if |keys| != |actual| {
      return Some(DuplicateTrials);
    }
    DistinctIff(directories);
    var places := set d | d in directories;
    if |places| != |directories| || None in directories {
      return Some(BadDirectories);
    }
    var missing, unexpected := expected - keys, keys - expected;
    SameSets(expected, keys);
    if missing != {} || unexpected != {} {
      return Some(Inconsistent);
    }
    return None;
  }

  lemma SameSets(a: set<Key>, b: set<Key>)
    ensures a - b == {} && b - a == {} <==> forall k :: k in a <==> k in b
  {
    if a - b == {} && b - a == {} {
      forall k: Key ensures k in a <==> k in b {
        assert k !in a - b && k !in b - a;
      }
    }
  }
}
