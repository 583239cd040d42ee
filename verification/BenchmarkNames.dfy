/** For which workload names the benchmark comes to its end, and at which it stops. */
module BenchmarkNames {
  import opened Options
  import opened Schedule
  import opened Manifest
  import opened BenchmarkRuns
  import opened BenchmarkLoop

  // ----- Names without a way up -----

  lemma ResolveUnroll(p: Path)
    ensures Resolve([]) == Dir(0, [])
    ensures p != [] ==> Resolve(p) == Enter(Resolve(p[..|p| - 1]), p[|p| - 1])
  {
    hide Enter;
  }

  lemma {:induction false} ResolvePlain(p: Path)
    requires ".." !in p
    ensures Resolve(p) == Dir(0, p)
  {
    hide Resolve, Enter;
    ResolveUnroll(p);
    if p != [] {
      var n := |p| - 1;
      assert forall k :: 0 <= k < n ==> p[..n][k] == p[k];
      ResolvePlain(p[..n]);
      EnterDown(p[..n], p[n]);
      assert p[..n] + [p[n]] == p;
    }
  }

  lemma EnterDown(p: Path, name: string)
    requires name != ".."
    ensures Enter(Dir(0, p), name) == Dir(0, p + [name])
  {
  }

  /** `q` leads to `p`, or to or through a file of `p`. */
  ghost predicate LeadsInto(p: Path, q: Path) {
    q <= p || exists name :: name in FileNames(p) && p + [name] <= q
  }

  ghost predicate NoneLeadInto(ps: seq<Path>) {
    forall i, j :: 0 <= i < j < |ps| ==> !LeadsInto(ps[i], ps[j])
  }

  /** The output directory is there, and no run has been made in it. */
  ghost predicate Empty(there: Dir -> bool) {
    there(Dir(0, [])) && forall names :: names != [] && names[0] in {"population", "runs"} ==> !there(Dir(0, names))
  }

  ghost predicate NoneUp(ps: seq<Path>) {
    forall i :: 0 <= i < |ps| ==> ps[i] != [] && ".." !in ps[i] && ps[i][0] in {"population", "runs"}
  }

  lemma ResolvePrefix(p: Path, k: nat)
    requires ".." !in p && k <= |p|
    ensures Resolve(p[..k]) == Dir(0, p[..k])
  {
    hide Resolve;
    ResolvePlain(p[..k]);
  }

  lemma ParentOfPlain(p: Path, names: Path)
    requires ".." !in p && names != []
    ensures Dir(0, names) in Parents(p) <==> names <= p && names != p
  {
    hide Resolve;
    if Dir(0, names) in Parents(p) {
      var k :| 1 <= k < |p| && Resolve(p[..k]) == Dir(0, names);
      ResolvePrefix(p, k);
    }
    if names <= p && names != p {
      var k := |names|;
      assert p[..k] == names;
      ResolvePrefix(p, k);
    }
  }

  lemma ParentsPlain(p: Path, q: Path)
    requires ".." !in p && ".." !in q && q != []
    ensures Resolve(q) == Dir(0, q)
    ensures Resolve(q) == Resolve(p) || Resolve(q) in Parents(p) <==> q <= p
    ensures Resolve(q) !in Parents(q)
  {
    hide Resolve, Parents;
    ResolvePlain(q);
    ResolvePlain(p);
    ParentOfPlain(p, q);
    ParentOfPlain(q, q);
  }

  lemma FilesPlain(p: Path, q: Path, name: string)
    requires ".." !in p && ".." !in q && q != [] && name in FileNames(p)
    ensures Enter(Resolve(p), name) in Parents(q) + {Resolve(q)} <==> p + [name] <= q
  {
    hide Resolve, Parents;
    ResolvePlain(p);
    ResolvePlain(q);
    ParentOfPlain(q, p + [name]);
  }

  lemma {:induction false} ClashPlain(p: Path, q: Path)
    requires ".." !in p && ".." !in q && q != []
    ensures Clash(p, q) <==> LeadsInto(p, q)
  {
    hide Resolve, Parents, FileNames, Enter;
    ParentsPlain(p, q);
    forall name | name in FileNames(p) ensures Enter(Resolve(p), name) in Parents(q) + {Resolve(q)} <==> p + [name] <= q {
      FilesPlain(p, q, name);
    }
    if x :| x in FilesOf(p) && x in Parents(q) + {Resolve(q)} {
      var name :| name in FileNames(p) && x == Enter(Resolve(p), name);
    }
    if name :| name in FileNames(p) && p + [name] <= q {
      assert Enter(Resolve(p), name) in FilesOf(p);
    }
  }

  lemma {:induction false} NoneTakenIff(there: Dir -> bool, ps: seq<Path>)
    requires Empty(there) && NoneUp(ps)
    ensures NoneTaken(there, ps) <==> NoneLeadInto(ps)
  {
    hide Resolve, Parents, Clash, LeadsInto;
    forall i | 0 <= i < |ps| ensures Resolve(ps[i]) == Dir(0, ps[i]) && Resolve(ps[i]) !in Parents(ps[i]) {
      ParentsPlain(ps[i], ps[i]);
    }
    forall i, j | 0 <= i < j < |ps| ensures Clash(ps[i], ps[j]) <==> LeadsInto(ps[i], ps[j]) {
      ClashPlain(ps[i], ps[j]);
    }
  }

  lemma ConcatLeadInto(a: seq<Path>, b: seq<Path>)
    ensures NoneLeadInto(a + b) <==> NoneLeadInto(a) && NoneLeadInto(b) && forall p, q :: p in a && q in b ==> !LeadsInto(p, q)
  {
    hide LeadsInto;
    var all := a + b;
    if NoneLeadInto(all) {
      forall i, j | 0 <= i < j < |a| ensures !LeadsInto(a[i], a[j]) {
        assert !LeadsInto(all[i], all[j]);
      }
      forall i, j | 0 <= i < j < |b| ensures !LeadsInto(b[i], b[j]) {
        assert !LeadsInto(all[|a| + i], all[|a| + j]);
      }
      forall i, j | 0 <= i < |a| && 0 <= j < |b| ensures !LeadsInto(a[i], b[j]) {
        assert !LeadsInto(all[i], all[|a| + j]);
      }
    }
    if NoneLeadInto(a) && NoneLeadInto(b) && forall p, q :: p in a && q in b ==> !LeadsInto(p, q) {
      forall i, j | 0 <= i < j < |all| ensures !LeadsInto(all[i], all[j]) {
        if j < |a| {
          assert all[i] == a[i] && all[j] == a[j];
        } else if i < |a| {
          assert all[i] == a[i] && all[j] == b[j - |a|];
          assert a[i] in a && b[j - |a|] in b;
        } else {
          assert all[i] == b[i - |a|] && all[j] == b[j - |a|];
        }
      }
    }
  }

  // ----- The directories of a workload -----

  lemma {:induction false} TrialsWritten(w: string, schedule: seq<Block>, n: nat, wall: Key -> int, r: Run)
    requires n <= |schedule| && r in TrialsRuns(w, schedule, n, wall)
    ensures !r.population && r.trial > 0 && r.order > 0 && r.workload == w
    ensures r.directory == Some(RunPath(w, r.trial, r.order, r.state))
    decreases n
  {
    hide RunPath;
    if r in TrialsRuns(w, schedule, n - 1, wall) {
      TrialsWritten(w, schedule, n - 1, wall, r);
    }
  }

  /** The directory of a run of `w`. */
  ghost predicate IsPathFor(w: string, p: Path) {
    p == PopulationPath(w) || exists t: nat, o: nat, s: string :: p == RunPath(w, t, o, s)
  }

  lemma {:induction false} WorkloadPaths(w: string, schedule: seq<Block>, wall: Key -> int, p: Path)
    requires p in Paths(WorkloadRuns(w, schedule, wall))
    ensures IsPathFor(w, p)
  {
    hide RunPath, PopulationPath, TrialsRuns;
    var runs := WorkloadRuns(w, schedule, wall);
    var k :| 0 <= k < |runs| && Paths(runs)[k] == p;
    if k > 0 {
      var r := runs[k];
      assert r == TrialsRuns(w, schedule, |schedule|, wall)[k - 1];
      TrialsWritten(w, schedule, |schedule|, wall, r);
      assert p == RunPath(w, r.trial, r.order, r.state);
    }
  }

  lemma PathForNoneUp(w: string, p: Path)
    requires IsPathFor(w, p) && ".." !in Components(w)
    ensures p != [] && ".." !in p && p[0] in {"population", "runs"}
  {
    hide Components, Pad;
    if p != PopulationPath(w) {
      var t: nat, o: nat, s: string :| p == RunPath(w, t, o, s);
      assert |"trial-" + Pad(t)| > 2;
      PadLong(o);
      assert |Pad(o) + "-" + s| > 2;
    }
  }

  lemma PadLong(n: nat)
    ensures |Pad(n)| >= 2
  {
    if n >= 10 {
      assert |Decimal(n)| == |Decimal(n / 10)| + 1;
    }
  }

  /** A directory of one workload is a prefix of one of another only if the workload's path is. */
  lemma {:induction false} PathsNest(w: string, p: Path, v: string, q: Path)
    requires IsPathFor(w, p) && IsPathFor(v, q) && q <= p
    ensures Components(v) <= Components(w)
    ensures p[0] == q[0] && (|p| == |q| ==> p == q)
  {
    hide Components, Pad, IsPathFor, PopulationPath, RunPath;
    StartsWith(w, p);
    StartsWith(v, q);
    assert q[0] == p[0];
    if q[0][0] == 'p' {
      PopulationParts(w);
      PopulationParts(v);
      assert q[1..] <= p[1..];
    } else {
      var t, o, s := RunParts(v, q);
      var t', o', s' := RunParts(w, p);
      var m := |Components(v)|;
      assert q[1..1 + m] == p[1..1 + m];
    }
  }

  /** Its first component says which kind of directory it is. */
  lemma StartsWith(w: string, p: Path)
    requires IsPathFor(w, p)
    ensures p != [] && |p[0]| > 0 && p[0][0] in {'p', 'r'}
    ensures p[0][0] == 'p' ==> p == PopulationPath(w)
  {
    hide Components, Pad;
  }

  lemma PopulationParts(w: string)
    ensures |PopulationPath(w)| == 1 + |Components(w)| && PopulationPath(w)[1..] == Components(w)
  {
    hide Components;
  }

  lemma RunParts(w: string, p: Path) returns (t: nat, o: nat, s: string)
    requires IsPathFor(w, p) && p != [] && |p[0]| > 0 && p[0][0] != 'p'
    ensures p == RunPath(w, t, o, s)
    ensures |p| == 3 + |Components(w)| && p[1..1 + |Components(w)|] == Components(w)
  {
    hide Components, Pad;
    assert p != PopulationPath(w);
    t, o, s :| p == RunPath(w, t, o, s);
  }

  lemma {:induction false} WorkloadApart(w: string, schedule: seq<Block>, wall: Key -> int)
    ensures NoneLeadInto(Paths(WorkloadRuns(w, schedule, wall)))
  {
    var runs := WorkloadRuns(w, schedule, wall);
    WorkloadPlaces(w, schedule, wall);
    PlacesDecide(runs);
    hide WorkloadRuns, Components, RunPath, PopulationPath, Written, Places, IsPathFor, LeadsInto;
    var ps := Paths(runs);
    forall i, j | 0 <= i < j < |ps| ensures !LeadsInto(ps[i], ps[j]) {
      assert ps[i] in ps && ps[j] in ps;
      WorkloadPaths(w, schedule, wall, ps[i]);
      WorkloadPaths(w, schedule, wall, ps[j]);
      assert Directories(runs)[i] != Directories(runs)[j] && Directories(runs)[i] in Directories(runs) && Directories(runs)[j] in Directories(runs);
      assert ps[i] != ps[j];
      SameApart(w, ps[i], ps[j]);
    }
  }

  lemma SameApart(w: string, p: Path, q: Path)
    requires IsPathFor(w, p) && IsPathFor(w, q) && p != q
    ensures !LeadsInto(p, q)
  {
    hide Components, IsPathFor, FileNames, PopulationPath;
    StartsWith(w, p);
    StartsWith(w, q);
    if p[0] == q[0] {
      SameLength(w, p, q);
    }
  }

  lemma SameLength(w: string, p: Path, q: Path)
    requires IsPathFor(w, p) && IsPathFor(w, q) && p != [] && q != [] && p[0] == q[0]
    ensures |p| == |q|
  {
    hide Components, Pad;
    assert "population"[0] != "runs"[0];
  }

  // ----- Two workloads -----

  /** Below the path of a workload, the directory of its run number `o` in trial `t`. */
  function RunTail(schedule: seq<Block>, t: nat, o: nat): Path
    requires t < |schedule| && o < |schedule[t]|
  {
    ["trial-" + Pad(t + 1), Pad(o + 1) + "-" + schedule[t][o]]
  }

  ghost predicate FileOfPopulation(w: string, v: string, name: string) {
    name in FileNames(["population"]) && Components(w) + [name] <= Components(v)
  }

  ghost predicate FileOfRun(schedule: seq<Block>, w: string, v: string, t: nat, o: nat, name: string) {
    && t < |schedule| && o < |schedule[t]| && name in FileNames(["runs"])
    && Components(w) + RunTail(schedule, t, o) + [name] <= Components(v)
  }

  /** Once `w` has been run, `v` cannot be: its path leads to that of `w`, or to or through a file of a run of `w`. */
  ghost predicate Blocks(schedule: seq<Block>, w: string, v: string) {
    || Components(v) <= Components(w)
    || (exists name :: FileOfPopulation(w, v, name))
    || (exists t, o, name :: FileOfRun(schedule, w, v, t, o, name))
  }

  /** No workload is blocked by an earlier one. */
  ghost predicate NoneBlocked(schedule: seq<Block>, workloads: seq<string>, n: nat)
    requires n <= |workloads|
  {
    forall i, j :: 0 <= i < j < n ==> !Blocks(schedule, workloads[i], workloads[j])
  }

  ghost predicate RunDirAt(schedule: seq<Block>, w: string, n: nat, p: Path, t: nat, o: nat) {
    t < n <= |schedule| && o < |schedule[t]| && p == ["runs"] + Components(w) + RunTail(schedule, t, o)
  }

  lemma RunPathIs(schedule: seq<Block>, w: string, t: nat, o: nat)
    requires t < |schedule| && o < |schedule[t]|
    ensures RunPath(w, t + 1, o + 1, schedule[t][o]) == ["runs"] + Components(w) + RunTail(schedule, t, o)
  {
    hide Components, Pad;
  }

  lemma {:induction false} TrialPaths(w: string, schedule: seq<Block>, n: nat, wall: Key -> int, p: Path)
    requires n <= |schedule|
    ensures p in Paths(TrialsRuns(w, schedule, n, wall)) <==> exists t, o :: RunDirAt(schedule, w, n, p, t, o)
    decreases n
  {
    hide RunPath, RunTail, Components;
    if n > 0 {
      var a, b := TrialsRuns(w, schedule, n - 1, wall), TrialRuns(w, n - 1, schedule[n - 1], wall);
      TrialPaths(w, schedule, n - 1, wall, p);
      PathsConcat(a, b);
      if t: nat, o: nat :| RunDirAt(schedule, w, n, p, t, o) {
        if t < n - 1 {
          assert RunDirAt(schedule, w, n - 1, p, t, o);
        } else {
          RunPathIs(schedule, w, t, o);
          assert Paths(b)[o] == p;
        }
      }
      if p in Paths(a) {
        var t: nat, o: nat :| RunDirAt(schedule, w, n - 1, p, t, o);
        assert RunDirAt(schedule, w, n, p, t, o);
      } else if p in Paths(b) {
        var o: nat :| o < |b| && Paths(b)[o] == p;
        RunPathIs(schedule, w, n - 1, o);
        assert RunDirAt(schedule, w, n, p, n - 1, o);
      }
    }
  }

  lemma WorkloadPathsIff(w: string, schedule: seq<Block>, wall: Key -> int, p: Path)
    ensures p in Paths(WorkloadRuns(w, schedule, wall)) <==>
            p == PopulationPath(w) || exists t, o :: RunDirAt(schedule, w, |schedule|, p, t, o)
  {
    hide PopulationPath, TrialsRuns, RunDirAt;
    var first, rest := [Population(w, wall)], TrialsRuns(w, schedule, |schedule|, wall);
    PathsConcat(first, rest);
    assert Paths(first) == [PopulationPath(w)];
    TrialPaths(w, schedule, |schedule|, wall, p);
  }

  lemma DecimalStarts(n: nat)
    ensures Decimal(n)[0] != 't' && Pad(n) != "" && Pad(n)[0] != 't'
  {
    if n >= 10 {
      DecimalStarts(n / 10);
    }
  }

  /** The two components below a workload's path, and the names of files, start differently. */
  lemma TailStarts(schedule: seq<Block>, t: nat, o: nat, t': nat, o': nat, p: Path, name: string)
    requires t < |schedule| && o < |schedule[t]| && t' < |schedule| && o' < |schedule[t']| && name in FileNames(p)
    ensures |RunTail(schedule, t, o)| == 2 && RunTail(schedule, t, o)[1] != RunTail(schedule, t', o')[0]
    ensures name != RunTail(schedule, t', o')[0]
  {
    DecimalStarts(o + 1);
    hide Pad, Decimal;
    assert RunTail(schedule, t', o')[0][0] == 't' && RunTail(schedule, t, o)[1][0] == Pad(o + 1)[0];
    assert name[0] != 't';
  }

  lemma {:induction false} RunsLeadInto(cw: Path, tail: Path, name: string, cv: Path, tail': Path)
    requires |tail| == |tail'| == 2 && tail[1] != tail'[0] && name != tail'[0]
    ensures ["runs"] + cw + tail + [name] <= ["runs"] + cv + tail' <==> cw + tail + [name] <= cv
  {
    var p, q := cw + tail + [name], cv + tail';
    if p <= q {
      var m := |cw|;
      assert p[m + 1] == q[m + 1] && p[m + 2] == q[m + 2] && p[m + 1] == tail[1] && p[m + 2] == name;
      assert q[|cv|] == tail'[0];
      assert |p| <= |cv| && q[..|p|] == cv[..|p|];
    }
    FirstTheSame("runs", p, q);
    assert ["runs"] + cw + tail + [name] == ["runs"] + p && ["runs"] + cv + tail' == ["runs"] + q;
  }

  lemma FirstTheSame(x: string, p: Path, q: Path)
    ensures [x] + p <= [x] + q <==> p <= q
  {
    assert [x] + p <= [x] + q ==> ([x] + p)[1..] <= ([x] + q)[1..];
  }

  /** Some directory of `v` leads into one of `w` exactly if `w` blocks `v`. */
  lemma {:induction false} BlocksIff(schedule: seq<Block>, w: string, v: string, wall: Key -> int)
    ensures Blocks(schedule, w, v) <==>
            exists p, q :: p in Paths(WorkloadRuns(w, schedule, wall)) && q in Paths(WorkloadRuns(v, schedule, wall)) && LeadsInto(p, q)
  {
    hide WorkloadRuns, Components, Paths, RunTail, LeadsInto, FileNames;
    var ps, qs := Paths(WorkloadRuns(w, schedule, wall)), Paths(WorkloadRuns(v, schedule, wall));
    if Blocks(schedule, w, v) {
      var p, q := BlockedPaths(schedule, w, v, wall);
    }
    if p, q :| p in ps && q in qs && LeadsInto(p, q) {
      LeadsBlocks(schedule, w, v, wall, p, q);
    }
  }

  lemma PopulationLead(w: string, v: string)
    ensures PopulationPath(v) <= PopulationPath(w) <==> Components(v) <= Components(w)
    ensures forall name :: PopulationPath(w) + [name] <= PopulationPath(v) <==> Components(w) + [name] <= Components(v)
  {
    hide Components;
    FirstTheSame("population", Components(v), Components(w));
    forall name ensures PopulationPath(w) + [name] <= PopulationPath(v) <==> Components(w) + [name] <= Components(v) {
      FirstTheSame("population", Components(w) + [name], Components(v));
      assert PopulationPath(w) + [name] == ["population"] + (Components(w) + [name]);
    }
  }

  lemma {:induction false} BlockedPaths(schedule: seq<Block>, w: string, v: string, wall: Key -> int) returns (p: Path, q: Path)
    requires Blocks(schedule, w, v)
    ensures p in Paths(WorkloadRuns(w, schedule, wall)) && q in Paths(WorkloadRuns(v, schedule, wall)) && LeadsInto(p, q)
  {
    hide WorkloadRuns, Components, Paths, RunTail, FileNames;
    if t: nat, o: nat, name :| FileOfRun(schedule, w, v, t, o, name) {
      p, q := ["runs"] + Components(w) + RunTail(schedule, t, o), ["runs"] + Components(v) + RunTail(schedule, t, o);
      assert RunDirAt(schedule, w, |schedule|, p, t, o) && RunDirAt(schedule, v, |schedule|, q, t, o);
      SameNames(p, ["runs"]);
      TailStarts(schedule, t, o, t, o, p, name);
      RunsLeadInto(Components(w), RunTail(schedule, t, o), name, Components(v), RunTail(schedule, t, o));
    } else {
      p, q := PopulationPath(w), PopulationPath(v);
      PopulationLead(w, v);
      SameNames(p, ["population"]);
      if !(Components(v) <= Components(w)) {
        var name :| FileOfPopulation(w, v, name);
        assert name in FileNames(p) && p + [name] <= q;
      }
    }
    WorkloadPathsIff(w, schedule, wall, p);
    WorkloadPathsIff(v, schedule, wall, q);
  }

  lemma SameNames(p: Path, q: Path)
    requires p != [] && q != [] && p[0] == q[0]
    ensures FileNames(p) == FileNames(q)
  {
  }

  lemma {:induction false} LeadsBlocks(schedule: seq<Block>, w: string, v: string, wall: Key -> int, p: Path, q: Path)
    requires p in Paths(WorkloadRuns(w, schedule, wall)) && q in Paths(WorkloadRuns(v, schedule, wall)) && LeadsInto(p, q)
    ensures Blocks(schedule, w, v)
  {
    hide WorkloadRuns, Components, Paths, RunTail, FileNames, IsPathFor, PopulationPath, RunDirAt, Blocks;
    WorkloadPaths(w, schedule, wall, p);
    WorkloadPaths(v, schedule, wall, q);
    if q <= p {
      PathsNest(w, p, v, q);
      PrefixBlocks(schedule, w, v);
    } else {
      var name :| name in FileNames(p) && p + [name] <= q;
      StartsWith(w, p);
      StartsWith(v, q);
      assert q[0] == (p + [name])[0] == p[0];
      if p[0][0] == 'p' {
        PopulationBlocks(schedule, w, v, name);
      } else {
        WorkloadPathsIff(w, schedule, wall, p);
        WorkloadPathsIff(v, schedule, wall, q);
        PopulationStarts(w);
        PopulationStarts(v);
        var t: nat, o: nat :| RunDirAt(schedule, w, |schedule|, p, t, o);
        var t': nat, o': nat :| RunDirAt(schedule, v, |schedule|, q, t', o');
        RunBlocks(schedule, w, v, p, q, t, o, t', o', name);
      }
    }
  }

  lemma PopulationStarts(w: string)
    ensures PopulationPath(w) != [] && PopulationPath(w)[0] == "population" && PopulationPath(w)[0][0] == 'p'
  {
    hide Components;
  }

  lemma PrefixBlocks(schedule: seq<Block>, w: string, v: string)
    requires Components(v) <= Components(w)
    ensures Blocks(schedule, w, v)
  {
  }

  lemma PopulationBlocks(schedule: seq<Block>, w: string, v: string, name: string)
    requires name in FileNames(PopulationPath(w)) && PopulationPath(w) + [name] <= PopulationPath(v)
    ensures Blocks(schedule, w, v)
  {
    hide Components, FileNames;
    PopulationLead(w, v);
    SameNames(PopulationPath(w), ["population"]);
    assert FileOfPopulation(w, v, name);
  }

  lemma RunBlocks(schedule: seq<Block>, w: string, v: string, p: Path, q: Path, t: nat, o: nat, t': nat, o': nat, name: string)
    requires RunDirAt(schedule, w, |schedule|, p, t, o) && RunDirAt(schedule, v, |schedule|, q, t', o')
    requires name in FileNames(p) && p + [name] <= q
    ensures Blocks(schedule, w, v)
  {
    hide Components, FileNames, RunTail;
    TailStarts(schedule, t, o, t', o', p, name);
    TailStarts(schedule, t', o', t, o, p, name);
    RunsLeadInto(Components(w), RunTail(schedule, t, o), name, Components(v), RunTail(schedule, t', o'));
    SameNames(p, ["runs"]);
    assert FileOfRun(schedule, w, v, t, o, name);
  }

  lemma PathsConcat(a: seq<Run>, b: seq<Run>)
    ensures Paths(a + b) == Paths(a) + Paths(b)
  {
    hide PathOf;
  }

  lemma {:induction false} PathsFrom(workloads: seq<string>, n: nat, schedule: seq<Block>, wall: Key -> int, p: Path) returns (i: nat)
    requires n <= |workloads| && p in Paths(RunsOf(workloads, n, schedule, wall))
    ensures i < n && p in Paths(WorkloadRuns(workloads[i], schedule, wall))
    decreases n
  {
    hide WorkloadRuns;
    var a, b := RunsOf(workloads, n - 1, schedule, wall), WorkloadRuns(workloads[n - 1], schedule, wall);
    PathsConcat(a, b);
    if p in Paths(a) {
      i := PathsFrom(workloads, n - 1, schedule, wall, p);
    } else {
      i := n - 1;
    }
  }

  lemma {:induction false} PathsOf(workloads: seq<string>, i: nat, n: nat, schedule: seq<Block>, wall: Key -> int, p: Path)
    requires i < n <= |workloads| && p in Paths(WorkloadRuns(workloads[i], schedule, wall))
    ensures p in Paths(RunsOf(workloads, n, schedule, wall))
    decreases n
  {
    hide WorkloadRuns;
    PathsConcat(RunsOf(workloads, n - 1, schedule, wall), WorkloadRuns(workloads[n - 1], schedule, wall));
    if i < n - 1 {
      PathsOf(workloads, i, n - 1, schedule, wall, p);
    }
  }

  lemma {:induction false} PlanApart(workloads: seq<string>, n: nat, schedule: seq<Block>, wall: Key -> int)
    requires n <= |workloads|
    ensures NoneLeadInto(Paths(RunsOf(workloads, n, schedule, wall))) <==> NoneBlocked(schedule, workloads, n)
    decreases n
  {
    hide WorkloadRuns, NoneLeadInto, Paths, LeadsInto, Blocks;
    if n == 0 {
      assert NoneLeadInto(Paths([])) by {
        NoPaths();
      }
    } else {
      var w := workloads[n - 1];
      var a, b := RunsOf(workloads, n - 1, schedule, wall), WorkloadRuns(w, schedule, wall);
      PlanApart(workloads, n - 1, schedule, wall);
      PathsConcat(a, b);
      ConcatLeadInto(Paths(a), Paths(b));
      WorkloadApart(w, schedule, wall);
      forall i | 0 <= i < n - 1 && Blocks(schedule, workloads[i], w)
        ensures exists p, q :: p in Paths(a) && q in Paths(b) && LeadsInto(p, q)
      {
        BlocksIff(schedule, workloads[i], w, wall);
        var p, q :| p in Paths(WorkloadRuns(workloads[i], schedule, wall)) && q in Paths(b) && LeadsInto(p, q);
        PathsOf(workloads, i, n - 1, schedule, wall, p);
      }
      forall p, q | p in Paths(a) && q in Paths(b) && LeadsInto(p, q)
        ensures exists i :: 0 <= i < n - 1 && Blocks(schedule, workloads[i], w)
      {
        var i := PathsFrom(workloads, n - 1, schedule, wall, p);
        BlocksIff(schedule, workloads[i], w, wall);
      }
    }
  }

  lemma NoPaths()
    ensures NoneLeadInto(Paths([]))
  {
  }

  /**
    In an output directory without runs, and with names without a way up, the loop ends exactly if all names are
    relative and no workload is blocked by an earlier one.
   */
  lemma {:induction false} FinishesIff(workloads: seq<string>, schedule: seq<Block>, there: Dir -> bool, wall: Key -> int)
    requires Empty(there) && forall i :: 0 <= i < |workloads| ==> ".." !in Components(workloads[i])
    ensures Finishes(workloads, schedule, there, wall) <==>
            && (forall i :: 0 <= i < |workloads| ==> !("/" <= workloads[i]))
            && NoneBlocked(schedule, workloads, |workloads|)
  {
    AbsoluteIff(workloads);
    hide RunsOf, WorkloadRuns, Components, NoneTaken, NoneLeadInto, NoneBlocked, MakeAll, IsPathFor, Empty, NoneAbsolute;
    var ps := Paths(Plan(workloads, schedule, wall));
    MakeAllIff(there, ps);
    forall k | 0 <= k < |ps| ensures ps[k] != [] && ".." !in ps[k] && ps[k][0] in {"population", "runs"} {
      assert ps[k] in ps;
      var i := PathsFrom(workloads, |workloads|, schedule, wall, ps[k]);
      WorkloadPaths(workloads[i], schedule, wall, ps[k]);
      PathForNoneUp(workloads[i], ps[k]);
    }
    NoneTakenIff(there, ps);
    PlanApart(workloads, |workloads|, schedule, wall);
  }

  /** Names that start at the root. */
  lemma AbsoluteIff(workloads: seq<string>)
    ensures NoneAbsolute(workloads) <==> forall i :: 0 <= i < |workloads| ==> !("/" <= workloads[i])
  {
  }

  /** A name that starts at the root stops the loop, whatever else is in the list. */
  lemma RootedStops(workloads: seq<string>, i: nat, schedule: seq<Block>, there: Dir -> bool, wall: Key -> int)
    requires i < |workloads| && "/" <= workloads[i]
    ensures !Finishes(workloads, schedule, there, wall)
  {
    AbsoluteIff(workloads);
  }

  /** A name that is one path component and leads down. */
  predicate PlainName(w: string) {
    w != "" && w != "." && w != ".." && '/' !in w
  }

  lemma PlainComponents(w: string)
    requires PlainName(w)
    ensures Components(w) == [w]
  {
    SplitPlain(w);
    assert Meaningful([w]) == [w] + Meaningful([w][1..]);
  }

  lemma PlainBlocks(schedule: seq<Block>, w: string, v: string)
    requires Components(w) == [w] && Components(v) == [v]
    ensures Blocks(schedule, w, v) <==> w == v
  {
    hide Components, FileNames, RunTail;
    assert [v] <= [w] <==> [v][0] == [w][0];
  }

  /** With plain names it ends exactly if they are distinct. */
  lemma PlainNamesFinish(workloads: seq<string>, schedule: seq<Block>, there: Dir -> bool, wall: Key -> int)
    requires Empty(there) && forall i :: 0 <= i < |workloads| ==> PlainName(workloads[i])
    ensures Finishes(workloads, schedule, there, wall) <==> Distinct(workloads)
  {
    hide Finishes, Components, Empty, Blocks;
    forall i | 0 <= i < |workloads| ensures Components(workloads[i]) == [workloads[i]] && !Absolute(workloads[i]) {
      PlainComponents(workloads[i]);
    }
    FinishesIff(workloads, schedule, there, wall);
    forall i, j | 0 <= i < j < |workloads| ensures Blocks(schedule, workloads[i], workloads[j]) <==> workloads[i] == workloads[j] {
      PlainBlocks(schedule, workloads[i], workloads[j]);
    }
  }

  lemma {:induction false} SplitTwo(w: string, v: string)
    requires '/' !in w && '/' !in v
    ensures Split(w + "/" + v) == [w, v]
  {
    if w == "" {
      SplitPlain(v);
      assert (w + "/" + v)[1..] == v;
    } else {
      SplitTwo(w[1..], v);
      assert (w + "/" + v)[1..] == w[1..] + "/" + v;
      assert w == [w[0]] + w[1..];
    }
  }

  const RunFiles := {"system-before.json", "stdout.log", "stderr.log", "system-after.json", "stats.json", "result.json"}

  /**
    A second workload inside the directory name of an earlier one stops the loop exactly if it is named like a file
    that the population of the earlier one writes.
   */
  lemma FileBlocks(schedule: seq<Block>, w: string, name: string)
    requires PlainName(w) && PlainName(name)
    ensures Blocks(schedule, w, w + "/" + name) <==> name in RunFiles + {"seed-manifest.json"}
  {
    PlainComponents(w);
    SplitTwo(w, name);
    var v := w + "/" + name;
    hide Split, Pad;
    MeaningfulCons(w, [name]);
    MeaningfulCons(name, []);
    assert [w] + [name] == [w, name] && [name] + [] == [name] && Meaningful([]) == [];
    assert Components(v) == [w, name];
    hide Components;
    if name in FileNames(["population"]) {
      assert FileOfPopulation(w, v, name);
    }
    if other :| FileOfPopulation(w, v, other) {
      assert ([w] + [other])[1] == other;
    }
  }

  /** The same for a workload below the directory of a run of an earlier one. */
  lemma RunFileBlocks(schedule: seq<Block>, w: string, v: string, t: nat, o: nat, name: string)
    requires t < |schedule| && o < |schedule[t]| && Components(v) == Components(w) + RunTail(schedule, t, o) + [name]
    ensures Blocks(schedule, w, v) <==> name in RunFiles
  {
    hide Components, Pad;
    var at, tail := |Components(w)|, RunTail(schedule, t, o);
    assert Components(v)[at] == tail[0] && Components(v)[at + 2] == name;
    if other :| FileOfPopulation(w, v, other) {
      assert (Components(w) + [other])[at] == other == tail[0];
      assert tail[0][..6] == "trial-";
      NoTrialFile(other);
    }
    if t', o', other :| FileOfRun(schedule, w, v, t', o', other) {
      assert (Components(w) + RunTail(schedule, t', o') + [other])[at + 2] == other;
    }
    if name in RunFiles {
      assert FileOfRun(schedule, w, v, t, o, name);
    }
  }

  lemma NoTrialFile(name: string)
    requires |name| >= 6 && name[..6] == "trial-"
    ensures name !in FileNames(["population"])
  {
    assert name[0] == 't';
  }

  // ----- Names with a way up -----

  lemma SplitUp()
    ensures Split("../a") == ["..", "a"]
  {
    SplitPlain("a");
    assert "../a"[1..] == "./a" && "./a"[1..] == "/a" && "/a"[1..] == "a";
    assert Split("/a") == [""] + ["a"];
    assert Split("./a") == [['.'] + ""] + ["a"];
    assert ['.'] + "" == ".";
    assert Split("../a") == [['.'] + "."] + ["a"];
    assert ['.'] + "." == "..";
  }

  lemma SplitDetour()
    ensures Split("b/../a") == ["b", "..", "a"]
  {
    SplitUp();
    assert "b/../a"[1..] == "/../a" && "/../a"[1..] == "../a";
    assert Split("/../a") == [""] + ["..", "a"];
    assert Split("b/../a") == [['b'] + ""] + ["..", "a"];
    assert ['b'] + "" == "b";
  }

  lemma MeaningfulCons(name: string, rest: seq<string>)
    requires name != "" && name != "."
    ensures Meaningful([name] + rest) == [name] + Meaningful(rest)
  {
    assert ([name] + rest)[1..] == rest;
  }

  lemma UpComponents()
    ensures Components("..") == [".."] && Components("b/../a") == ["b", "..", "a"]
  {
    SplitPlain("..");
    SplitDetour();
    hide Split;
    MeaningfulCons("..", []);
    MeaningfulCons("a", []);
    MeaningfulCons("..", ["a"]);
    MeaningfulCons("b", ["..", "a"]);
    assert Meaningful([]) == [];
    hide Meaningful;
    assert [".."] + [] == [".."] && ["a"] + [] == ["a"] && [".."] + ["a"] == ["..", "a"] && ["b"] + ["..", "a"] == ["b", "..", "a"];
  }

  lemma PopulationPaths()
    ensures PopulationPath("..") == ["population", ".."] && PopulationPath("a") == ["population", "a"]
    ensures PopulationPath("b/../a") == ["population", "b", "..", "a"]
  {
    UpComponents();
    PlainComponents("a");
    hide Components;
  }

  lemma ResolveDetour(p: Path)
    requires p == ["population", "b", "..", "a"]
    ensures Resolve(p) == Resolve(["population", "a"])
  {
    var down: Path := ["population", "a"];
    assert p[..3][..2] == ["population", "b"];
    ResolvePlain(p[..3][..2]);
    ResolvePlain(down);
    assert ["population", "b"][..1] == ["population"];
    assert Resolve(p[..3]) == Dir(0, ["population"]);
    assert ["population"] + ["a"] == down;
  }

  lemma ResolveUp(p: Path)
    requires p == ["population", ".."]
    ensures Resolve(p) == Dir(0, [])
  {
    assert p[..1] == ["population"] && ["population"][..0] == [];
    ResolvePlain(p[..1]);
  }

  /** The loop stops at the name `..`, and at a detour to a directory that it has made. */
  lemma WayUpStops(there: Dir -> bool)
    requires Empty(there)
    ensures MakeAll(there, [PopulationPath("..")]).None?
    ensures MakeAll(there, [PopulationPath("a"), PopulationPath("b/../a")]).None?
  {
    PopulationPaths();
    hide PopulationPath, Resolve, MakeAll, Parents, FilesOf;
    var up, down, detour := PopulationPath(".."), PopulationPath("a"), PopulationPath("b/../a");
    ResolveUp(up);
    ResolveDetour(detour);
    StopsAt(there, [up], 0, 0);
    StopsAt(there, [down, detour], 0, 1);
  }

  function Ups(n: nat): (p: Path)
    ensures |p| == n
  {
    if n == 0 then [] else Ups(n - 1) + [".."]
  }

  /** Each `..` takes back the last name, and goes up from the output directory when there is none left. */
  lemma {:induction false} ResolveUps(p: Path, n: nat)
    ensures var d := Resolve(p);
            Resolve(p + Ups(n)) ==
            if n <= |d.names| then Dir(d.ups, d.names[..|d.names| - n]) else Dir(d.ups + n - |d.names|, [])
    decreases n
  {
    if n == 0 {
      assert p + Ups(0) == p;
      assert Resolve(p).names[..|Resolve(p).names| - 0] == Resolve(p).names;
    } else {
      var q := p + Ups(n);
      assert q[..|q| - 1] == p + Ups(n - 1) && q[|q| - 1] == "..";
      hide Ups;
      ResolveUps(p, n - 1);
    }
  }

  /** Names that lead down are added to where a path leads. */
  lemma {:induction false} ResolveDown(p: Path, q: Path)
    requires ".." !in q
    ensures var d := Resolve(p); Resolve(p + q) == Dir(d.ups, d.names + q)
    decreases |q|
  {
    if q == [] {
      assert p + q == p && Resolve(p).names + q == Resolve(p).names;
    } else {
      var n := |q| - 1;
      assert (p + q)[..|p + q| - 1] == p + q[..n] && (p + q)[|p + q| - 1] == q[n];
      ResolveDown(p, q[..n]);
      assert Resolve(p).names + q[..n] + [q[n]] == Resolve(p).names + q;
    }
  }

  lemma StopsAt(there: Dir -> bool, ps: seq<Path>, i: nat, j: nat)
    requires i <= j < |ps| && (there(Resolve(ps[j])) || (i < j && Resolve(ps[i]) == Resolve(ps[j])))
    ensures MakeAll(there, ps).None?
  {
    hide Resolve, MakeAll, Parents, FilesOf;
    MakeAllIff(there, ps);
    assert i < j && Resolve(ps[i]) == Resolve(ps[j]) ==> Clash(ps[i], ps[j]);
  }
}
