/** Summarizing an accepted manifest: every lookup and every median in it is defined. */
module BenchmarkSummary {
  import opened Options
  import opened Schedule
  import opened Manifest

  // ----- Grouping -----

  predicate InGroup(r: Run, w: string, s: string) {
    !r.population && r.workload == w && r.state == s
  }

  predicate InCell(r: Run, w: string, t: int, s: string) {
    InGroup(r, w, s) && r.trial == t
  }

  /** The measured runs of a workload in a state, in the order of the manifest. */
  function GroupOf(runs: seq<Run>, w: string, s: string): seq<Run> {
    if runs == [] then []
    else
      var n := |runs| - 1;
      GroupOf(runs[..n], w, s) + if InGroup(runs[n], w, s) then [runs[n]] else []
  }

  /** The last run of a workload in a trial and a state. */
  function LastRun(runs: seq<Run>, w: string, t: int, s: string): Option<Run> {
    if runs == [] then None
    else
      var n := |runs| - 1;
      if InCell(runs[n], w, t, s) then Some(runs[n]) else LastRun(runs[..n], w, t, s)
  }

  type Groups = map<(string, string), seq<Run>>
  type Trials = map<(string, int), map<string, Run>>

  ghost predicate GroupsAre(groups: Groups, runs: seq<Run>) {
    forall w, s :: (if (w, s) in groups then groups[(w, s)] else []) == GroupOf(runs, w, s)
                   && ((w, s) in groups ==> groups[(w, s)] != [])
  }

  function Cell(byTrial: Trials, w: string, t: int, s: string): Option<Run> {
    if (w, t) in byTrial && s in byTrial[(w, t)] then Some(byTrial[(w, t)][s]) else None
  }

  ghost predicate TrialsAre(byTrial: Trials, runs: seq<Run>) {
    && (forall w, t, s :: Cell(byTrial, w, t, s) == LastRun(runs, w, t, s))
    && (forall w, t :: (w, t) in byTrial ==> byTrial[(w, t)] != map[])
  }

  /** Runs are grouped one by one; population runs are skipped. */
  method GroupRuns(runs: seq<Run>) returns (groups: Groups, byTrial: Trials)
    ensures GroupsAre(groups, runs) && TrialsAre(byTrial, runs)
  {
    groups, byTrial := map[], map[];
    hide GroupsAre, TrialsAre;
    NoRuns();
    assert runs[..0] == [];
    for i := 0 to |runs|
      invariant GroupsAre(groups, runs[..i]) && TrialsAre(byTrial, runs[..i])
    {
      var r := runs[i];
      ghost var before, groups0, byTrial0 := runs[..i], groups, byTrial;
      assert runs[..i + 1] == before + [r];
      if !r.population {
        var g, c := (r.workload, r.state), (r.workload, r.trial);
        groups := groups[g := (if g in groups then groups[g] else []) + [r]];
        byTrial := byTrial[c := (if c in byTrial then byTrial[c] else map[])[r.state := r]];
      }
      NextGroup(groups0, before, r);
      NextTrial(byTrial0, before, r);
    }
    assert runs[..|runs|] == runs;
  }

  lemma NoRuns()
    ensures GroupsAre(map[], []) && TrialsAre(map[], [])
  {
  }

  lemma NextGroup(groups: Groups, before: seq<Run>, r: Run)
    requires GroupsAre(groups, before)
    ensures var g := (r.workload, r.state);
            GroupsAre(if r.population then groups else groups[g := (if g in groups then groups[g] else []) + [r]], before + [r])
  {
    var runs := before + [r];
    assert runs[..|runs| - 1] == before;
    forall w, s ensures GroupOf(runs, w, s) == GroupOf(before, w, s) + if InGroup(r, w, s) then [r] else [] {
    }
  }

  lemma NextTrial(byTrial: Trials, before: seq<Run>, r: Run)
    requires TrialsAre(byTrial, before)
    ensures var c := (r.workload, r.trial);
            TrialsAre(if r.population then byTrial else byTrial[c := (if c in byTrial then byTrial[c] else map[])[r.state := r]], before + [r])
  {
    var runs, c := before + [r], (r.workload, r.trial);
    assert runs[..|runs| - 1] == before;
    var next := if r.population then byTrial else byTrial[c := (if c in byTrial then byTrial[c] else map[])[r.state := r]];
    forall w, t, s ensures Cell(next, w, t, s) == LastRun(runs, w, t, s) {
      assert Cell(byTrial, w, t, s) == LastRun(before, w, t, s);
    }
    forall w, t | (w, t) in next ensures next[(w, t)] != map[] {
      if (w, t) == c && !r.population {
        assert r.state in next[c];
      }
    }
  }

  // ----- Completeness -----

  lemma {:induction false} LastRunIff(runs: seq<Run>, w: string, t: int, s: string)
    ensures LastRun(runs, w, t, s).Some? <==> exists i :: 0 <= i < |runs| && InCell(runs[i], w, t, s)
    ensures LastRun(runs, w, t, s).Some? ==> InCell(LastRun(runs, w, t, s).value, w, t, s)
    decreases |runs|
  {
    hide InCell;
    if runs != [] {
      var n := |runs| - 1;
      var front := runs[..n];
      LastRunIff(front, w, t, s);
      if i :| 0 <= i < |front| && InCell(front[i], w, t, s) {
        assert InCell(runs[i], w, t, s);
      }
      if i :| 0 <= i < |runs| && InCell(runs[i], w, t, s) {
        assert i < n ==> InCell(front[i], w, t, s);
      }
    }
  }

  /** In an accepted manifest a workload was run in a trial and a state exactly if it should have been. */
  lemma {:induction false} AcceptedCells(m: Metadata, runs: seq<Run>, w: string, t: int, s: string)
    requires Accepted(m, runs)
    ensures LastRun(runs, w, t, s).Some? <==> w in m.workloads && 1 <= t <= m.trials && s in States
  {
    LastRunIff(runs, w, t, s);
    hide LastRun, Distinct;
    if w in m.workloads && 1 <= t <= m.trials && s in States {
      var block := m.schedule[t - 1];
      assert ValidBlock(block);
      var o :| 0 <= o < |block| && block[o] == s;
      var k := Key(w, t, s, o + 1, false);
      assert Expected(m, k);
      var i :| 0 <= i < |runs| && Keys(runs)[i] == k;
      assert InCell(runs[i], w, t, s);
    }
    if i :| 0 <= i < |runs| && InCell(runs[i], w, t, s) {
      var k := KeyOf(runs[i]);
      assert Keys(runs)[i] == k;
      assert Expected(m, k);
      assert ValidBlock(m.schedule[t - 1]);
    }
  }

  lemma {:induction false} GroupOfMember(runs: seq<Run>, i: nat, w: string, s: string)
    requires i < |runs| && InGroup(runs[i], w, s)
    ensures GroupOf(runs, w, s) != []
    decreases |runs|
  {
    var n := |runs| - 1;
    if i < n {
      assert runs[..n][i] == runs[i];
      GroupOfMember(runs[..n], i, w, s);
    }
  }

  /** So every group that the summary takes a median of is there and is not empty. */
  lemma {:induction false} AcceptedGroups(m: Metadata, runs: seq<Run>, w: string, s: string)
    requires Accepted(m, runs) && w in m.workloads && s in States
    ensures GroupOf(runs, w, s) != []
  {
    hide GroupOf, LastRun, Accepted;
    assert m.trials >= 1 by {
      HasTrials(m, runs);
    }
    AcceptedCells(m, runs, w, 1, s);
    LastRunIff(runs, w, 1, s);
    var i :| 0 <= i < |runs| && InCell(runs[i], w, 1, s);
    GroupOfMember(runs, i, w, s);
  }

  lemma HasTrials(m: Metadata, runs: seq<Run>)
    requires Accepted(m, runs)
    ensures m.trials >= 1
  {
  }

  /** The lookups by trial are defined, and there is an entry for every workload and trial and for nothing else. */
  lemma {:induction false} AcceptedTrials(m: Metadata, runs: seq<Run>, byTrial: Trials)
    requires Accepted(m, runs) && TrialsAre(byTrial, runs)
    ensures forall w, t :: (w, t) in byTrial <==> w in m.workloads && 1 <= t <= m.trials
    ensures forall w, t, s :: (w, t) in byTrial ==> (s in byTrial[(w, t)] <==> s in States)
  {
    hide Accepted, LastRun;
    forall w, t, s ensures Cell(byTrial, w, t, s).Some? <==> w in m.workloads && 1 <= t <= m.trials && s in States {
      AcceptedCells(m, runs, w, t, s);
      assert Cell(byTrial, w, t, s) == LastRun(runs, w, t, s);
    }
    forall w, t ensures (w, t) in byTrial <==> w in m.workloads && 1 <= t <= m.trials {
      if (w, t) in byTrial {
        var s :| s in byTrial[(w, t)];
        assert Cell(byTrial, w, t, s).Some?;
      }
      if w in m.workloads && 1 <= t <= m.trials {
        assert Cold in States;
        assert Cell(byTrial, w, t, Cold).Some?;
      }
    }
    forall w, t, s | (w, t) in byTrial ensures s in byTrial[(w, t)] <==> s in States {
      assert Cell(byTrial, w, t, s).Some? <==> s in byTrial[(w, t)];
    }
  }

  // ----- Paired comparisons -----

  datatype Paired = Paired(workload: string, state: string, deltas: seq<int>)

  /** How much longer a state took than the disabled one, in each trial. */
  ghost predicate DeltasAre(p: Paired, runs: seq<Run>, trials: int) {
    && |p.deltas| == trials
    && forall t :: 0 <= t < trials ==>
                     var candidate, disabled := LastRun(runs, p.workload, t + 1, p.state), LastRun(runs, p.workload, t + 1, Disabled);
                     candidate.Some? && disabled.Some? && p.deltas[t] == candidate.value.wallNs - disabled.value.wallNs
  }

  /** The comparisons of an accepted manifest: one for each workload and cached state, with a sample for each trial. */
  method PairedComparisons(m: Metadata, runs: seq<Run>) returns (paired: seq<Paired>)
    requires Accepted(m, runs)
    ensures |paired| == 2 * |m.workloads|
    ensures forall i :: 0 <= i < |m.workloads| ==>
                          paired[2 * i].workload == paired[2 * i + 1].workload == m.workloads[i]
                          && paired[2 * i].state == Cold && paired[2 * i + 1].state == Warm
    ensures forall p :: p in paired ==> p.deltas != [] && DeltasAre(p, runs, m.trials)
  {
    var groups, byTrial := GroupRuns(runs);
    AcceptedTrials(m, runs, byTrial);
    HasTrials(m, runs);
    hide Accepted, LastRun, GroupsAre, DeltasAre;
    assert Disabled in States && Cold in States && Warm in States;
    paired := [];
    for i := 0 to |m.workloads|
      invariant |paired| == 2 * i
      invariant forall j :: 0 <= j < i ==>
                              paired[2 * j].workload == paired[2 * j + 1].workload == m.workloads[j]
                              && paired[2 * j].state == Cold && paired[2 * j + 1].state == Warm
      invariant forall p :: p in paired ==> p.deltas != [] && DeltasAre(p, runs, m.trials)
    {
      var cold := Deltas(byTrial, m.workloads[i], Cold, m.trials, runs);
      var warm := Deltas(byTrial, m.workloads[i], Warm, m.trials, runs);
      paired := paired + [cold, warm];
    }
  }

  method Deltas(byTrial: Trials, w: string, s: string, trials: int, ghost runs: seq<Run>) returns (p: Paired)
    requires trials >= 1 && TrialsAre(byTrial, runs)
    requires forall t :: 1 <= t <= trials ==> (w, t) in byTrial && s in byTrial[(w, t)] && Disabled in byTrial[(w, t)]
    ensures p.workload == w && p.state == s && p.deltas != [] && DeltasAre(p, runs, trials)
  {
    hide LastRun;
    var deltas: seq<int> := [];
    for t := 0 to trials
      invariant |deltas| == t
      invariant forall j :: 0 <= j < t ==>
                              var candidate, disabled := LastRun(runs, w, j + 1, s), LastRun(runs, w, j + 1, Disabled);
                              candidate.Some? && disabled.Some? && deltas[j] == candidate.value.wallNs - disabled.value.wallNs
    {
      var states := byTrial[(w, t + 1)];
      assert Cell(byTrial, w, t + 1, s) == Some(states[s]) && Cell(byTrial, w, t + 1, Disabled) == Some(states[Disabled]);
      deltas := deltas + [states[s].wallNs - states[Disabled].wallNs];
    }
    p := Paired(w, s, deltas);
  }
}
