/** Rollback and recovery on arbitrary disks: what is put back, what is left
    alone, and why interrupting a recovery changes nothing. */
module DecisionRecovery {
  import opened Wrappers
  import opened DecisionTypes
  import opened DecisionModel

  // ---------------------------------------------------------------- the goal of a rollback

  /** Snapshots of one path agree with each other. */
  ghost predicate Consistent(original: seq<Snapshot>)
  {
    forall i, j | 0 <= i < |original| && 0 <= j < |original| ::
      original[i].path == original[j].path ==> original[i] == original[j]
  }

  /** Snapshots as they are taken: an absent file has no data and the plain mode. */
  ghost predicate AsTaken(s: seq<Snapshot>)
  {
    forall i | 0 <= i < |s| :: !s[i].present ==> s[i].data == [] && s[i].mode == PLAIN_MODE
  }

  ghost predicate Matched(original: seq<Snapshot>, results: seq<Snapshot>)
  {
    |original| == |results| && |original| > 0 && Paths(original) == Paths(results) &&
    Consistent(original) && AsTaken(original)
  }

  /** What a rollback makes of a file seen as `seen`: a result goes back to its
      original, anything else stays as it is. */
  ghost function Goal(original: seq<Snapshot>, results: seq<Snapshot>, seen: Snapshot): Snapshot
    requires Matched(original, results)
  {
    if seen in results && seen !in original then OriginalAt(original, results, seen) else seen
  }

  /** The original snapshot of the path that `seen` is a result for. */
  ghost function OriginalAt(original: seq<Snapshot>, results: seq<Snapshot>, seen: Snapshot): (s: Snapshot)
    requires Matched(original, results) && seen in results
    ensures s in original && s.path == seen.path
  {
    var i :| 0 <= i < |results| && results[i] == seen;
    assert Paths(original)[i] == Paths(results)[i];
    original[i]
  }

  /** The file is neither an original nor a result: somebody else wrote it. */
  ghost predicate Foreign(original: seq<Snapshot>, results: seq<Snapshot>, files: map<string, FileData>)
    requires |original| == |results|
  {
    exists i :: 0 <= i < |original| && IsForeign(original[i], results[i], Observe(files, original[i].path))
  }

  ghost predicate IsForeign(original: Snapshot, result: Snapshot, seen: Snapshot)
  {
    seen != original && seen != result
  }

  lemma ObserveDetermines(f: map<string, FileData>, g: map<string, FileData>)
    requires forall p :: Observe(f, p) == Observe(g, p)
    ensures f == g
  {
    forall p ensures (p in f <==> p in g) && (p in f ==> f[p] == g[p]) {
      assert Observe(f, p) == Observe(g, p);
    }
    assert f.Keys == g.Keys;
  }

  lemma PutObserved(files: map<string, FileData>, s: Snapshot, p: string)
    requires !s.present ==> s.data == [] && s.mode == PLAIN_MODE
    ensures Observe(Put(files, s), p) == if p == s.path then s else Observe(files, p)
  {}

  /** The restoring loop: under every fate, each file is as it was or at its goal;
      a file yet to come that needs restoring is reached later in the loop. */
  ghost predicate Restoring(start: map<string, FileData>, files: map<string, FileData>,
                            original: seq<Snapshot>, results: seq<Snapshot>, i: nat)
    requires Matched(original, results)
  {
    forall p ::
      || Observe(files, p) == Goal(original, results, Observe(start, p))
      || (Observe(files, p) == Observe(start, p) &&
          exists j :: i <= j < |results| && results[j] == Observe(start, p) && original[j] != results[j])
  }

  lemma RestoringBegins(start: map<string, FileData>, original: seq<Snapshot>, results: seq<Snapshot>)
    requires Matched(original, results)
    ensures Restoring(start, start, original, results, 0)
  {
    forall p | Goal(original, results, Observe(start, p)) != Observe(start, p)
      ensures exists j :: 0 <= j < |results| && results[j] == Observe(start, p) && original[j] != results[j]
    {
      var j :| 0 <= j < |results| && results[j] == Observe(start, p);
      assert original[j] in original;
    }
  }

  /** A position whose file does not hold its result has nothing left to restore. */
  lemma RestoreSkips(start: map<string, FileData>, files: map<string, FileData>,
                     original: seq<Snapshot>, results: seq<Snapshot>, i: nat)
    requires Matched(original, results) && i < |original|
    requires Restoring(start, files, original, results, i)
    requires Observe(start, original[i].path) == original[i] || Observe(start, original[i].path) != results[i]
    ensures Restoring(start, files, original, results, i + 1)
  {
    assert Paths(original)[i] == Paths(results)[i];
    forall p, j | i <= j < |results| && results[j] == Observe(start, p) && original[j] != results[j]
      ensures j != i
    {}
  }

  lemma GoalOfResult(original: seq<Snapshot>, results: seq<Snapshot>, i: nat)
    requires Matched(original, results) && i < |original| && original[i] != results[i]
    ensures Goal(original, results, results[i]) == original[i]
  {
    assert Paths(original)[i] == Paths(results)[i];
    assert results[i] !in original;
  }

  lemma RestoreStep(start: map<string, FileData>, files: map<string, FileData>,
                    original: seq<Snapshot>, results: seq<Snapshot>, i: nat)
    requires Matched(original, results) && i < |original|
    requires Restoring(start, files, original, results, i)
    requires results[i] == Observe(start, original[i].path) != original[i]
    ensures Restoring(start, Put(files, original[i]), original, results, i + 1)
  {
    var s := original[i];
    assert Paths(original)[i] == Paths(results)[i] == s.path;
    GoalOfResult(original, results, i);
    var next := Put(files, s);
    forall p ensures
      || Observe(next, p) == Goal(original, results, Observe(start, p))
      || (Observe(next, p) == Observe(start, p) &&
          exists j :: i + 1 <= j < |results| && results[j] == Observe(start, p) && original[j] != results[j])
    {
      PutObserved(files, s, p);
      if p != s.path && Observe(files, p) != Goal(original, results, Observe(start, p)) {
        var j :| i <= j < |results| && results[j] == Observe(start, p) && original[j] != results[j];
        assert results[i].path == s.path;
      }
    }
  }

  lemma RestoringIsWeaker(start: map<string, FileData>, files: map<string, FileData>, original: seq<Snapshot>,
                          results: seq<Snapshot>, i: nat)
    requires Matched(original, results) && i <= |results| && Restoring(start, files, original, results, i)
    ensures Restoring(start, files, original, results, 0)
  {}

  /** The loop under every fate: it touches only files, never past their goals,
      and when it ends every file is at its goal. */
  lemma {:induction false} RestoreFromFiles(m: Machine, start: map<string, FileData>, current: seq<Snapshot>,
                          original: seq<Snapshot>, results: seq<Snapshot>, i: nat, external: bool)
    requires Matched(original, results) && current == ObserveAll(start, Paths(original))
    requires i <= |current| && Restoring(start, m.disk.files, original, results, i)
    ensures var r := RestoreFrom(m, current, original, results, i, external);
      r.0.disk == m.disk.(files := r.0.disk.files) &&
      Restoring(start, r.0.disk.files, original, results, if r.1.Ok? then |results| else 0)
    decreases |current| - i
  {
    hide Restoring, Observe;
    if i < |current| {
      assert current[i] == Observe(start, original[i].path);
      if current[i] != original[i] && current[i] == results[i] {
        RestoreStep(start, m.disk.files, original, results, i);
        var (m1, o) := PutSnapshot(m, original[i]);
        if o.Ok? {
          RestoreFromFiles(m1, start, current, original, results, i + 1, external);
        } else {
          RestoringIsWeaker(start, m1.disk.files, original, results, i);
        }
      } else {
        RestoreSkips(start, m.disk.files, original, results, i);
        RestoreFromFiles(m, start, current, original, results, i + 1, external || current[i] != original[i]);
      }
    }
  }

  ghost predicate ForeignFrom(current: seq<Snapshot>, original: seq<Snapshot>, results: seq<Snapshot>, i: nat)
    requires |current| == |original| == |results|
  {
    exists k :: i <= k < |current| && current[k] != original[k] && current[k] != results[k]
  }

  /** The loop's verdict: whether it met a file that is neither original nor result. */
  lemma {:induction false} RestoreFromVerdict(m: Machine, current: seq<Snapshot>, original: seq<Snapshot>,
                                              results: seq<Snapshot>, i: nat, external: bool)
    requires |current| == |original| == |results| && i <= |current|
    ensures var o := RestoreFrom(m, current, original, results, i, external).1;
      o.Ok? ==> (o.value <==> (external || ForeignFrom(current, original, results, i)))
    decreases |current| - i
  {
    if i < |current| {
      if current[i] != original[i] && current[i] == results[i] {
        var (m1, o) := PutSnapshot(m, original[i]);
        if o.Ok? {
          RestoreFromVerdict(m1, current, original, results, i + 1, external);
        }
      } else {
        RestoreFromVerdict(m, current, original, results, i + 1, external || current[i] != original[i]);
      }
    }
  }

  /** No step of the script fails, and there are at least `n`. */
  ghost predicate Faultless(script: seq<Fault>, n: nat)
  {
    |script| >= n && forall f | f in script :: f.Installed?
  }

  lemma {:induction false} RestoreFromCompletes(m: Machine, current: seq<Snapshot>, original: seq<Snapshot>,
                                                results: seq<Snapshot>, i: nat, external: bool, n: nat)
    requires |current| == |original| == |results| && i <= |current|
    requires Faultless(m.script, |current| - i + n)
    ensures var r := RestoreFrom(m, current, original, results, i, external);
      r.1.Ok? && Faultless(r.0.script, n)
    decreases |current| - i
  {
    if i < |current| {
      if current[i] != original[i] && current[i] == results[i] {
        assert m.script[0] in m.script;
        var (m1, o) := PutSnapshot(m, original[i]);
        RestoreFromCompletes(m1, current, original, results, i + 1, external, n);
      } else {
        RestoreFromCompletes(m, current, original, results, i + 1, external || current[i] != original[i], n);
      }
    }
  }

  // ---------------------------------------------------------------- the whole rollback

  ghost predicate AllReadable(files: map<string, FileData>, paths: seq<string>)
  {
    forall path | path in paths :: Readable(files, path)
  }

  ghost predicate Sized(s: seq<Snapshot>)
  {
    forall i | 0 <= i < |s| :: |s[i].data| <= MAX_DOCUMENT_BYTES
  }

  lemma GoalKeepsPath(original: seq<Snapshot>, results: seq<Snapshot>, seen: Snapshot)
    requires Matched(original, results)
    ensures var g := Goal(original, results, seen);
      g.path == seen.path && (g == seen || g in original) && Goal(original, results, g) == g
  {}

  /** Between a start and its goals, the goals do not move. */
  lemma RestoringKeepsGoals(start: map<string, FileData>, files: map<string, FileData>,
                            original: seq<Snapshot>, results: seq<Snapshot>, p: string)
    requires Matched(original, results) && Restoring(start, files, original, results, 0)
    ensures Goal(original, results, Observe(files, p)) == Goal(original, results, Observe(start, p))
    ensures Observe(files, p) == Observe(start, p) || Observe(files, p) in original
  {
    GoalKeepsPath(original, results, Observe(start, p));
  }

  lemma RestoringStaysReadable(start: map<string, FileData>, files: map<string, FileData>,
                               original: seq<Snapshot>, results: seq<Snapshot>, paths: seq<string>)
    requires Matched(original, results) && Sized(original) && Restoring(start, files, original, results, 0)
    requires AllReadable(start, paths)
    ensures AllReadable(files, paths)
  {
    forall p | p in paths ensures Readable(files, p) {
      RestoringKeepsGoals(start, files, original, results, p);
      assert Readable(start, p);
      assert |Observe(files, p).data| <= MAX_DOCUMENT_BYTES;
    }
  }

  ghost predicate AtGoals(start: map<string, FileData>, files: map<string, FileData>,
                          original: seq<Snapshot>, results: seq<Snapshot>)
    requires Matched(original, results)
  {
    forall p :: Observe(files, p) == Goal(original, results, Observe(start, p))
  }

  /** At the goals no result is left behind, and only foreign files differ from the originals. */
  lemma GoalsAreOriginals(start: map<string, FileData>, files: map<string, FileData>,
                          original: seq<Snapshot>, results: seq<Snapshot>, i: nat)
    requires Matched(original, results) && AtGoals(start, files, original, results) && i < |original|
    ensures var p := original[i].path; var seen := Observe(start, p);
      (seen == original[i] || seen == results[i] ==> Observe(files, p) == original[i]) &&
      (original[i] != results[i] ==> Observe(files, p) != results[i])
  {
    var p := original[i].path;
    assert Paths(original)[i] == Paths(results)[i];
    var seen := Observe(start, p);
    GoalKeepsPath(original, results, seen);
    if original[i] != results[i] {
      GoalOfResult(original, results, i);
    }
    if seen in original {
      assert Goal(original, results, seen) == seen;
    }
  }

  /** At the goals, the comparison after the loop adds no news. */
  lemma GoalsDecideVerdict(start: map<string, FileData>, files: map<string, FileData>,
                           original: seq<Snapshot>, results: seq<Snapshot>)
    requires Matched(original, results) && AtGoals(start, files, original, results)
    ensures Foreign(original, results, start) <==>
      ForeignFrom(ObserveAll(start, Paths(original)), original, results, 0) ||
      ObserveAll(files, Paths(original)) != original
  {
    var current, after := ObserveAll(start, Paths(original)), ObserveAll(files, Paths(original));
    assert forall k | 0 <= k < |current| :: current[k] == Observe(start, original[k].path);
    if !Foreign(original, results, start) {
      forall i | 0 <= i < |original| ensures after[i] == original[i] {
        GoalsAreOriginals(start, files, original, results, i);
      }
      assert after == original;
    }
    if after != original {
      var i :| 0 <= i < |original| && after[i] != original[i];
      GoalsAreOriginals(start, files, original, results, i);
    }
  }

  /** A rollback under every fate: only files change, each file is as before or at
      its goal, and a completed rollback has every file at its goal and reports
      exactly whether a foreign file was met. */
  lemma RestoreEffect(m: Machine, original: seq<Snapshot>, results: seq<Snapshot>)
    requires Matched(original, results)
    ensures var r := Restore(m, original, results);
      r.0.disk == m.disk.(files := r.0.disk.files) &&
      Restoring(m.disk.files, r.0.disk.files, original, results, 0) &&
      (r.1.Ok? ==> AtGoals(m.disk.files, r.0.disk.files, original, results) &&
                   r.1.value == Foreign(original, results, m.disk.files))
  {
    var start := m.disk.files;
    var paths := Paths(original);
    RestoringBegins(start, original, results);
    if AllReadable(start, paths) {
      var current := ObserveAll(start, paths);
      RestoreFromFiles(m, start, current, original, results, 0, false);
      RestoreFromVerdict(m, current, original, results, 0, false);
      var r := RestoreFrom(m, current, original, results, 0, false);
      RestoringDone(start, r.0.disk.files, original, results);
      if r.1.Ok? {
        GoalsDecideVerdict(start, r.0.disk.files, original, results);
      }
    }
  }

  lemma RestoringDone(start: map<string, FileData>, files: map<string, FileData>, original: seq<Snapshot>,
      results: seq<Snapshot>)
    requires Matched(original, results)
    ensures Restoring(start, files, original, results, |results|) ==>
      AtGoals(start, files, original, results) && Restoring(start, files, original, results, 0)
  {}

  lemma RestoreCompletes(m: Machine, original: seq<Snapshot>, results: seq<Snapshot>, n: nat)
    requires Matched(original, results) && Sized(original) && AllReadable(m.disk.files, Paths(original))
    requires Faultless(m.script, |original| + n)
    ensures var r := Restore(m, original, results); r.1.Ok? && Faultless(r.0.script, n)
  {
    var start := m.disk.files;
    var paths := Paths(original);
    var current := ObserveAll(start, paths);
    RestoringBegins(start, original, results);
    RestoreFromFiles(m, start, current, original, results, 0, false);
    RestoreFromCompletes(m, current, original, results, 0, false, n);
    var (m1, o) := RestoreFrom(m, current, original, results, 0, false);
    RestoringStaysReadable(start, m1.disk.files, original, results, paths) by {
      assert Restoring(start, m1.disk.files, original, results, |results|);
    }
    assert AtGoals(start, m1.disk.files, original, results);
    var after := ObserveAll(m1.disk.files, paths);
    forall i | 0 <= i < |original| && original[i] != results[i] ensures after[i] != results[i] {
      GoalsAreOriginals(start, m1.disk.files, original, results, i);
    }
  }

  // ---------------------------------------------------------------- recovery

  /** A journal whose snapshots were taken from one disk. */
  ghost predicate Journalled(w: World, d: Disk, id: string)
  {
    d.journal.Some? && ValidTransaction(w, d.journal.value, id) &&
    Matched(d.journal.value.snapshots, d.journal.value.results)
  }

  lemma JournalPaths(w: World, t: Transaction, id: string)
    requires ValidTransaction(w, t, id)
    ensures Paths(t.snapshots) == Paths(t.results) == [t.proposal.targetPath, INDEX, LOG]
    ensures Sized(t.snapshots) && Sized(t.results)
  {
    assert t.audit.rollback == [t.proposal.targetPath, INDEX, LOG];
  }

  /** Recovery gets past its reads: the files and the candidate can be looked at. */
  ghost predicate Examinable(d: Disk)
    requires d.journal.Some?
  {
    AllReadable(d.files, Paths(d.journal.value.snapshots)) &&
    ReadCandidate(d, d.journal.value.proposal.candidatePath) != Err(TooLarge)
  }

  /** The branch recovery takes: forward when the candidate and all results are in place. */
  ghost predicate Forward(d: Disk)
    requires d.journal.Some?
  {
    var t := d.journal.value;
    ReadCandidate(d, t.proposal.candidatePath) == Ok(t.candidate) &&
    ObserveAll(d.files, Paths(t.snapshots)) == t.results
  }

  lemma RecoverBranches(w: World, m: Machine, id: string)
    requires m.disk.journal.Some? && ValidTransaction(w, m.disk.journal.value, id)
    ensures !Examinable(m.disk) ==> Recover(w, m, id).0 == m && Recover(w, m, id).1.Err?
    ensures Examinable(m.disk) ==> var t := m.disk.journal.value;
      Recover(w, m, id) ==
        if Forward(m.disk) then RollForward(m, t, id)
        else RollBack(m, t, ReadCandidate(m.disk, t.proposal.candidatePath) == Ok(t.candidate))
  {
    JournalPaths(w, m.disk.journal.value, id);
  }

  /** Once some file is not at its result, restoring never makes all files look like results. */
  lemma RestoringStaysBack(d: Disk, files: map<string, FileData>)
    requires d.journal.Some?
    requires Matched(d.journal.value.snapshots, d.journal.value.results)
    requires Restoring(d.files, files, d.journal.value.snapshots, d.journal.value.results, 0)
    requires !Forward(d)
    ensures !Forward(d.(files := files))
  {
    var t := d.journal.value;
    var paths := Paths(t.snapshots);
    if ReadCandidate(d, t.proposal.candidatePath) == Ok(t.candidate) {
      var i :| 0 <= i < |paths| && ObserveAll(d.files, paths)[i] != t.results[i];
      var seen := Observe(d.files, paths[i]);
      RestoringKeepsGoals(d.files, files, t.snapshots, t.results, paths[i]);
      if Observe(files, paths[i]) == t.results[i] {
        assert Observe(files, paths[i]) in t.snapshots;
        assert seen in t.results && seen !in t.snapshots;
        var j :| 0 <= j < |t.results| && t.results[j] == seen;
        assert Paths(t.snapshots)[j] == Paths(t.results)[j];
        assert Observe(files, paths[j]) != t.results[j];
      }
      assert ObserveAll(files, paths) != t.results;
    }
  }

  /** What follows the restoring: the journal is removed, unless that step fails or the process ends. */
  lemma RollBackAfterRestore(m: Machine, t: Transaction, matches: bool)
    ensures var (m1, external) := Restore(m, t.snapshots, t.results); var r := RollBack(m, t, matches);
      && (r.0.disk == m1.disk || (external.Ok? && r.0.disk == m1.disk.(journal := None)))
      && (r.1.Ok? ==> external == Ok(false) && matches && r.0.disk.journal.None?)
  {
    hide Restore;
  }

  /** Rolling back, step by step: only files change until the journal goes. */
  lemma RollBackEffect(w: World, m: Machine, id: string, matches: bool)
    requires Journalled(w, m.disk, id)
    ensures var t := m.disk.journal.value; var r := RollBack(m, t, matches);
      && Restoring(m.disk.files, r.0.disk.files, t.snapshots, t.results, 0)
      && (r.0.disk == m.disk.(files := r.0.disk.files) ||
          (r.0.disk == m.disk.(files := r.0.disk.files, journal := None) &&
           AtGoals(m.disk.files, r.0.disk.files, t.snapshots, t.results)))
      && (r.1.Ok? ==> r.0.disk.journal.None? && matches && !Foreign(t.snapshots, t.results, m.disk.files))
  {
    var t := m.disk.journal.value;
    RestoreEffect(m, t.snapshots, t.results);
    RollBackAfterRestore(m, t, matches);
    hide *;
  }

  lemma RollBackCompletes(w: World, m: Machine, id: string, matches: bool)
    requires Journalled(w, m.disk, id) && Examinable(m.disk) && Faultless(m.script, 4)
    ensures var t := m.disk.journal.value; var r := RollBack(m, t, matches);
      r.0.disk.journal.None? &&
      r.1 == (if matches && !Foreign(t.snapshots, t.results, m.disk.files) then Ok(()) else Err(VersionConflict))
  {
    var t := m.disk.journal.value;
    JournalPaths(w, t, id);
    RestoreEffect(m, t.snapshots, t.results);
    RestoreCompletes(m, t.snapshots, t.results, 1);
    var (m1, o) := Restore(m, t.snapshots, t.results);
    assert m1.script[0] in m1.script;
  }

  /** Foreign edits survive: recovery, under every fate, never changes a file that
      is neither an original nor a result, and it cannot succeed while one is there. */
  lemma RecoveryKeepsForeignEdits(w: World, m: Machine, id: string, p: string)
    requires Journalled(w, m.disk, id)
    ensures var t := m.disk.journal.value; var r := Recover(w, m, id); var seen := Observe(m.disk.files, p);
      && (seen !in t.results || seen in t.snapshots ==> Observe(r.0.disk.files, p) == seen)
      && (r.1.Ok? ==> !Foreign(t.snapshots, t.results, m.disk.files) &&
                      ReadCandidate(m.disk, t.proposal.candidatePath) == Ok(t.candidate))
  {
    var t := m.disk.journal.value;
    RecoverBranches(w, m, id);
    if Examinable(m.disk) {
      if Forward(m.disk) {
        assert forall i | 0 <= i < |t.snapshots| ::
          ObserveAll(m.disk.files, Paths(t.snapshots))[i] == Observe(m.disk.files, t.snapshots[i].path);
      } else {
        var matches := ReadCandidate(m.disk, t.proposal.candidatePath) == Ok(t.candidate);
        RollBackEffect(w, m, id, matches);
      }
    }
  }

  /** When every step is installed, recovery reports a version conflict exactly when
      it must roll back over a foreign file or a changed candidate. */
  lemma RecoveryReportsForeignEdits(w: World, m: Machine, id: string)
    requires Journalled(w, m.disk, id) && Examinable(m.disk) && Faultless(m.script, 4)
    ensures var t := m.disk.journal.value; var o := Recover(w, m, id).1;
      o == Err(VersionConflict) <==>
        (Foreign(t.snapshots, t.results, m.disk.files) ||
         ReadCandidate(m.disk, t.proposal.candidatePath) != Ok(t.candidate))
  {
    var t := m.disk.journal.value;
    RecoverBranches(w, m, id);
    if Forward(m.disk) {
      assert m.script[0] in m.script;
      assert m.script[1] in m.script;
      assert forall i | 0 <= i < |t.snapshots| ::
        ObserveAll(m.disk.files, Paths(t.snapshots))[i] == Observe(m.disk.files, t.snapshots[i].path);
    } else {
      RollBackCompletes(w, m, id, ReadCandidate(m.disk, t.proposal.candidatePath) == Ok(t.candidate));
    }
  }

  /** The disk after a recovery in which every step is installed. */
  ghost function RecoveredDisk(w: World, d: Disk, id: string): Disk
  {
    Recover(w, Machine(d, [Installed, Installed, Installed, Installed]), id).0.disk
  }

  lemma RolledBackDisk(w: World, d: Disk, id: string)
    requires Journalled(w, d, id) && Examinable(d) && !Forward(d)
    ensures var r := RecoveredDisk(w, d, id);
      r == d.(files := r.files, journal := None) &&
      AtGoals(d.files, r.files, d.journal.value.snapshots, d.journal.value.results)
  {
    var m := Machine(d, [Installed, Installed, Installed, Installed]);
    var t := d.journal.value;
    var matches := ReadCandidate(d, t.proposal.candidatePath) == Ok(t.candidate);
    RecoverBranches(w, m, id);
    RollBackEffect(w, m, id, matches);
    RollBackCompletes(w, m, id, matches);
  }

  lemma RollForwardRestarts(w: World, m: Machine, id: string)
    requires Journalled(w, m.disk, id) && Examinable(m.disk) && Forward(m.disk)
    ensures RecoveredDisk(w, Recover(w, m, id).0.disk, id) == RecoveredDisk(w, m.disk, id)
  {
    var d := m.disk;
    var t := d.journal.value;
    var full := [Installed, Installed, Installed, Installed];
    RecoverBranches(w, m, id);
    RecoverBranches(w, Machine(d, full), id);
    var d1 := Recover(w, m, id).0.disk;
    if d1 != d && d1.journal.Some? {
      assert d1 == d.(record := Some(t.proposal));
      assert SameProposal(t.proposal, t.proposal);
      RecoverBranches(w, Machine(d1, full), id);
      assert Examinable(d1) && Forward(d1);
    }
  }

  lemma RollBackRestarts(w: World, m: Machine, id: string)
    requires Journalled(w, m.disk, id) && Examinable(m.disk) && !Forward(m.disk)
    ensures RecoveredDisk(w, Recover(w, m, id).0.disk, id) == RecoveredDisk(w, m.disk, id)
  {
    var d := m.disk;
    var t := d.journal.value;
    RecoverBranches(w, m, id);
    RollBackEffect(w, m, id, ReadCandidate(d, t.proposal.candidatePath) == Ok(t.candidate));
    RolledBackDisk(w, d, id);
    var d1 := Recover(w, m, id).0.disk;
    var whole := RecoveredDisk(w, d, id);
    if d1.journal.Some? {
      JournalPaths(w, t, id);
      RestoringStaysReadable(d.files, d1.files, t.snapshots, t.results, Paths(t.snapshots));
      RestoringStaysBack(d, d1.files);
      RolledBackDisk(w, d1, id);
      var again := RecoveredDisk(w, d1, id);
      forall p ensures Observe(again.files, p) == Observe(whole.files, p) {
        RestoringKeepsGoals(d.files, d1.files, t.snapshots, t.results, p);
      }
      ObserveDetermines(again.files, whole.files);
    } else {
      ObserveDetermines(d1.files, whole.files);
    }
  }

  /** Recovery is restartable: whatever happens to a first attempt, a second one
      ends with the disk that one undisturbed recovery leaves. */
  lemma RecoveryRestarts(w: World, m: Machine, id: string)
    requires m.disk.journal.Some? && ValidTransaction(w, m.disk.journal.value, id) ==> Journalled(w, m.disk, id)
    ensures RecoveredDisk(w, Recover(w, m, id).0.disk, id) == RecoveredDisk(w, m.disk, id)
  {
    if m.disk.journal.Some? && ValidTransaction(w, m.disk.journal.value, id) {
      RecoverBranches(w, m, id);
      if Examinable(m.disk) {
        if Forward(m.disk) {
          RollForwardRestarts(w, m, id);
        } else {
          RollBackRestarts(w, m, id);
        }
      }
    }
  }

  /** Any number of interrupted attempts, each with its own fate. */
  ghost function Attempts(w: World, d: Disk, id: string, fates: seq<seq<Fault>>): Disk
    decreases |fates|
  {
    if fates == [] then d
    else Attempts(w, Recover(w, Machine(d, fates[0]), id).0.disk, id, fates[1..])
  }

  lemma RecoverKeepsJournalled(w: World, m: Machine, id: string)
    requires Journalled(w, m.disk, id)
    ensures var d := Recover(w, m, id).0.disk; d.journal.None? || d.journal == m.disk.journal
  {
    RecoverBranches(w, m, id);
    if Examinable(m.disk) && !Forward(m.disk) {
      var t := m.disk.journal.value;
      RollBackEffect(w, m, id, ReadCandidate(m.disk, t.proposal.candidatePath) == Ok(t.candidate));
    }
  }

  /** However often recovery is interrupted, the end is the same. */
  lemma {:induction false} RecoveryIsIdempotent(w: World, d: Disk, id: string, fates: seq<seq<Fault>>)
    requires d.journal.Some? && ValidTransaction(w, d.journal.value, id) ==> Journalled(w, d, id)
    ensures RecoveredDisk(w, Attempts(w, d, id, fates), id) == RecoveredDisk(w, d, id)
    decreases |fates|
  {
    if fates != [] {
      var m := Machine(d, fates[0]);
      RecoveryRestarts(w, m, id);
      if Journalled(w, d, id) {
        RecoverKeepsJournalled(w, m, id);
      }
      RecoveryIsIdempotent(w, Recover(w, m, id).0.disk, id, fates[1..]);
    }
  }

  // ---------------------------------------------------------------- the reply of a restarted recovery

  /** What a recovery in which every step is installed replies. */
  ghost function RecoveryReply(w: World, d: Disk, id: string): Outcome<()>
  {
    Recover(w, Machine(d, [Installed, Installed, Installed, Installed]), id).1
  }

  /** A file of the transaction is none of its originals and none of its results. */
  ghost predicate Strange(original: seq<Snapshot>, results: seq<Snapshot>, files: map<string, FileData>)
  {
    exists i :: 0 <= i < |original| && IsStrange(original, results, Observe(files, original[i].path))
  }

  ghost predicate IsStrange(original: seq<Snapshot>, results: seq<Snapshot>, seen: Snapshot)
  {
    seen !in original && seen !in results
  }

  /** The rollback takes a file for foreign that holds a result of the same path from another position. */
  ghost predicate Crossed(d: Disk)
    requires d.journal.Some?
  {
    var t := d.journal.value;
    |t.snapshots| == |t.results| && !Forward(d) && ReadCandidate(d, t.proposal.candidatePath) == Ok(t.candidate) &&
    Foreign(t.snapshots, t.results, d.files) && !Strange(t.snapshots, t.results, d.files)
  }

  /** An original seen at a path of the transaction is the one of that path. */
  lemma OriginalInPlace(original: seq<Snapshot>, i: nat, seen: Snapshot)
    requires Consistent(original) && i < |original| && seen.path == original[i].path
    ensures seen in original ==> seen == original[i]
  {}

  /** Restoring makes no file foreign that was not. */
  lemma RestoringMakesNoForeign(start: map<string, FileData>, files: map<string, FileData>,
                                original: seq<Snapshot>, results: seq<Snapshot>)
    requires Matched(original, results) && Restoring(start, files, original, results, 0)
    ensures Foreign(original, results, files) ==> Foreign(original, results, start)
  {
    if i :| 0 <= i < |original| && IsForeign(original[i], results[i], Observe(files, original[i].path)) {
      RestoringKeepsGoals(start, files, original, results, original[i].path);
      OriginalInPlace(original, i, Observe(files, original[i].path));
      assert IsForeign(original[i], results[i], Observe(start, original[i].path));
    }
  }

  /** A strange file stays as it is, and is foreign. */
  lemma RestoringKeepsStrange(start: map<string, FileData>, files: map<string, FileData>,
                              original: seq<Snapshot>, results: seq<Snapshot>)
    requires Matched(original, results) && Restoring(start, files, original, results, 0)
    ensures Strange(original, results, start) ==> Strange(original, results, files) && Foreign(original, results, files)
  {
    if i :| 0 <= i < |original| && IsStrange(original, results, Observe(start, original[i].path)) {
      RestoringKeepsGoals(start, files, original, results, original[i].path);
      assert IsStrange(original, results, Observe(files, original[i].path));
      assert original[i] in original && results[i] in results;
      assert IsForeign(original[i], results[i], Observe(files, original[i].path));
    }
  }

  /** Where nothing is strange, all files at their goals are originals. */
  lemma GoalsWithoutStrange(start: map<string, FileData>, files: map<string, FileData>,
                            original: seq<Snapshot>, results: seq<Snapshot>)
    requires Matched(original, results) && AtGoals(start, files, original, results)
    requires !Strange(original, results, start)
    ensures !Foreign(original, results, files)
  {
    forall i | 0 <= i < |original| ensures Observe(files, original[i].path) == original[i] {
      var seen := Observe(start, original[i].path);
      assert !IsStrange(original, results, seen);
      GoalKeepsPath(original, results, seen);
      OriginalInPlace(original, i, Observe(files, original[i].path));
    }
  }

  /** What an undisturbed rollback replies. */
  lemma RollBackReply(w: World, d: Disk, id: string)
    requires Journalled(w, d, id) && Examinable(d) && !Forward(d)
    ensures var t := d.journal.value;
      var clean := ReadCandidate(d, t.proposal.candidatePath) == Ok(t.candidate) &&
                   !Foreign(t.snapshots, t.results, d.files);
      RecoveryReply(w, d, id) == if clean then Ok(()) else Err(VersionConflict)
  {
    var t, m := d.journal.value, Machine(d, [Installed, Installed, Installed, Installed]);
    RecoverBranches(w, m, id);
    RollBackCompletes(w, m, id, ReadCandidate(d, t.proposal.candidatePath) == Ok(t.candidate));
  }

  /** A recovery of anything but a crossed disk, cut off with the journal still there, leaves one that replies alike. */
  lemma AttemptRepliesAlike(w: World, m: Machine, id: string)
    requires Journalled(w, m.disk, id) && Examinable(m.disk) && !Crossed(m.disk)
    requires Recover(w, m, id).0.disk.journal.Some?
    ensures var d := Recover(w, m, id).0.disk;
      Journalled(w, d, id) && Examinable(d) && !Crossed(d) && RecoveryReply(w, d, id) == RecoveryReply(w, m.disk, id)
  {
    var d, t := m.disk, m.disk.journal.value;
    RecoverBranches(w, m, id);
    if Forward(d) {
      ForwardRepliesAlike(w, m, id);
    } else {
      RollBackEffect(w, m, id, ReadCandidate(d, t.proposal.candidatePath) == Ok(t.candidate));
      var d1 := Recover(w, m, id).0.disk;
      JournalPaths(w, t, id);
      hide Recover, ValidTransaction, Observe, Matched, Goal;
      RestoringStaysReadable(d.files, d1.files, t.snapshots, t.results, Paths(t.snapshots));
      RestoringStaysBack(d, d1.files);
      RestoringMakesNoForeign(d.files, d1.files, t.snapshots, t.results);
      RestoringKeepsStrange(d.files, d1.files, t.snapshots, t.results);
      RestoringBegins(d.files, t.snapshots, t.results);
      RestoringKeepsStrange(d.files, d.files, t.snapshots, t.results);
      hide Foreign, Strange, Restoring;
      RollBackReply(w, d, id);
      RollBackReply(w, d1, id);
    }
  }

  lemma ForwardRepliesAlike(w: World, m: Machine, id: string)
    requires Journalled(w, m.disk, id) && Examinable(m.disk) && Forward(m.disk)
    requires Recover(w, m, id).0.disk.journal.Some?
    ensures var d := Recover(w, m, id).0.disk;
      Journalled(w, d, id) && Examinable(d) && Forward(d) && RecoveryReply(w, d, id) == RecoveryReply(w, m.disk, id)
  {
    var d, t, full := m.disk, m.disk.journal.value, [Installed, Installed, Installed, Installed];
    RecoverBranches(w, m, id);
    RecoverBranches(w, Machine(d, full), id);
    var d1 := Recover(w, m, id).0.disk;
    if d1 != d {
      assert d1 == d.(record := Some(t.proposal));
      assert SameProposal(t.proposal, t.proposal);
      RecoverBranches(w, Machine(d1, full), id);
      assert Examinable(d1) && Forward(d1);
    }
  }

  lemma {:induction false} AttemptsReplyAlike(w: World, d: Disk, id: string, fates: seq<seq<Fault>>)
    requires Journalled(w, d, id) && Examinable(d) && !Crossed(d) && Attempts(w, d, id, fates).journal.Some?
    ensures RecoveryReply(w, Attempts(w, d, id, fates), id) == RecoveryReply(w, d, id)
    decreases |fates|
  {
    hide Recover, Journalled, Examinable, Crossed, RecoveryReply;
    if fates != [] {
      var d1 := Recover(w, Machine(d, fates[0]), id).0.disk;
      if d1.journal.None? {
        AttemptsWithoutJournal(w, d1, id, fates[1..]);
      }
      AttemptRepliesAlike(w, Machine(d, fates[0]), id);
      AttemptsReplyAlike(w, d1, id, fates[1..]);
    }
  }

  lemma {:induction false} AttemptsWithoutJournal(w: World, d: Disk, id: string, fates: seq<seq<Fault>>)
    requires d.journal.None?
    ensures Attempts(w, d, id, fates) == d
    decreases |fates|
  {
    if fates != [] {
      AttemptsWithoutJournal(w, d, id, fates[1..]);
    }
  }

  /** The steps a rollback takes from position `i` on. */
  ghost function Puts(current: seq<Snapshot>, original: seq<Snapshot>, results: seq<Snapshot>, i: nat): nat
    requires |current| == |original| == |results| && i <= |current|
    decreases |current| - i
  {
    if i == |current| then 0
    else
      Puts(current, original, results, i + 1) + if current[i] != original[i] && current[i] == results[i] then 1 else 0
  }

  /** A script of just these steps is used up by the loop. */
  lemma {:induction false} PutsAreEnough(m: Machine, current: seq<Snapshot>, original: seq<Snapshot>,
                                         results: seq<Snapshot>, i: nat, external: bool)
    requires |current| == |original| == |results| && i <= |current|
    requires m.script == seq(Puts(current, original, results, i), _ => Installed)
    ensures var r := RestoreFrom(m, current, original, results, i, external); r.1.Ok? && r.0.script == []
    decreases |current| - i
  {
    if i < |current| {
      if current[i] == original[i] || current[i] != results[i] {
        PutsAreEnough(m, current, original, results, i + 1, external || current[i] != original[i]);
      } else {
        var (m1, o) := PutSnapshot(m, original[i]);
        assert m1.script == seq(Puts(current, original, results, i + 1), _ => Installed);
        PutsAreEnough(m1, current, original, results, i + 1, external);
      }
    }
  }

  /** A rollback that is killed when all files are back, before it removes the journal. */
  lemma KilledAtJournal(w: World, d: Disk, id: string) returns (fate: seq<Fault>)
    requires Journalled(w, d, id) && Examinable(d) && !Forward(d)
    ensures var d1, t := Recover(w, Machine(d, fate), id).0.disk, d.journal.value;
      d1 == d.(files := d1.files) && AtGoals(d.files, d1.files, t.snapshots, t.results)
  {
    var t := d.journal.value;
    JournalPaths(w, t, id);
    var current := ObserveAll(d.files, Paths(t.snapshots));
    fate := seq(Puts(current, t.snapshots, t.results, 0), _ => Installed);
    var m := Machine(d, fate);
    RecoverBranches(w, m, id);
    PutsAreEnough(m, current, t.snapshots, t.results, 0, false);
    RestoreUsesUp(m, t.snapshots, t.results);
    RestoreEffect(m, t.snapshots, t.results);
    hide Restore, RestoreFrom, ValidTransaction, Matched, AtGoals;
  }

  lemma RestoreUsesUp(m: Machine, original: seq<Snapshot>, results: seq<Snapshot>)
    requires Matched(original, results) && Sized(original) && AllReadable(m.disk.files, Paths(original))
    requires var current := ObserveAll(m.disk.files, Paths(original));
      var r := RestoreFrom(m, current, original, results, 0, false); r.1.Ok? && r.0.script == []
    ensures var r := Restore(m, original, results); r.1.Ok? && r.0.script == []
  {
    var start, paths := m.disk.files, Paths(original);
    var current := ObserveAll(start, paths);
    RestoringBegins(start, original, results);
    RestoreFromFiles(m, start, current, original, results, 0, false);
    var (m1, o) := RestoreFrom(m, current, original, results, 0, false);
    RestoringDone(start, m1.disk.files, original, results);
    RestoringStaysReadable(start, m1.disk.files, original, results, paths);
    var after := ObserveAll(m1.disk.files, paths);
    forall i | 0 <= i < |original| && original[i] != results[i] ensures after[i] != results[i] {
      GoalsAreOriginals(start, m1.disk.files, original, results, i);
    }
  }

  /** However often a recovery is interrupted, as long as the journal is there an undisturbed one replies what the first
      would have, exactly when the disk is not crossed. */
  lemma RecoveryRepliesAlike(w: World, d: Disk, id: string)
    requires Journalled(w, d, id) && Examinable(d)
    ensures !Crossed(d) <==> forall fates :: Attempts(w, d, id, fates).journal.Some? ==>
      RecoveryReply(w, Attempts(w, d, id, fates), id) == RecoveryReply(w, d, id)
  {
    hide Examinable, Recover;
    if !Crossed(d) {
      forall fates | Attempts(w, d, id, fates).journal.Some?
        ensures RecoveryReply(w, Attempts(w, d, id, fates), id) == RecoveryReply(w, d, id)
      {
        AttemptsReplyAlike(w, d, id, fates);
      }
    } else {
      var fate := KilledAtJournal(w, d, id);
      CrossedRepliesDiffer(w, d, id, fate);
      var fates := [fate];
      assert fates[1..] == [];
      var d1 := Recover(w, Machine(d, fate), id).0.disk;
      assert Attempts(w, d1, id, []) == d1;
      assert Attempts(w, d, id, fates) == d1;
    }
  }

  lemma CrossedRepliesDiffer(w: World, d: Disk, id: string, fate: seq<Fault>)
    requires Journalled(w, d, id) && Examinable(d) && Crossed(d)
    requires var d1, t := Recover(w, Machine(d, fate), id).0.disk, d.journal.value;
      d1 == d.(files := d1.files) && AtGoals(d.files, d1.files, t.snapshots, t.results)
    ensures var d1 := Recover(w, Machine(d, fate), id).0.disk;
      d1.journal.Some? && RecoveryReply(w, d1, id) == Ok(()) && RecoveryReply(w, d, id) == Err(VersionConflict)
  {
    var d1, t := Recover(w, Machine(d, fate), id).0.disk, d.journal.value;
    JournalPaths(w, t, id);
    RollBackReply(w, d, id);
    RecoverBranches(w, Machine(d, fate), id);
    RollBackEffect(w, Machine(d, fate), id, true);
    GoalsWithoutStrange(d.files, d1.files, t.snapshots, t.results);
    hide Recover, ValidTransaction, Observe, Matched, Goal, Foreign, Strange;
    RestoringStaysReadable(d.files, d1.files, t.snapshots, t.results, Paths(t.snapshots));
    RestoringStaysBack(d, d1.files);
    RollBackReply(w, d1, id);
  }

  /** What is foreign at its position and yet not strange is a result of another position with the same path. */
  lemma ForeignByAlias(original: seq<Snapshot>, results: seq<Snapshot>, i: nat, seen: Snapshot)
    requires Matched(original, results) && i < |original| && seen.path == original[i].path
    requires IsForeign(original[i], results[i], seen) && !IsStrange(original, results, seen)
    ensures exists j :: 0 <= j < |results| && j != i && Paths(original)[j] == Paths(original)[i]
  {
    OriginalInPlace(original, i, seen);
    var j :| 0 <= j < |results| && results[j] == seen;
    assert Paths(results)[j] == Paths(original)[j];
  }

  /** Only where the target is the index or the log itself can a disk be crossed. */
  lemma CrossedTarget(w: World, d: Disk, id: string)
    requires Journalled(w, d, id) && Crossed(d)
    ensures d.journal.value.proposal.targetPath in [INDEX, LOG]
  {
    var t := d.journal.value;
    JournalPaths(w, t, id);
    hide ValidTransaction, ReadCandidate, Forward, Matched, IsForeign, IsStrange, Observe;
    var i :| 0 <= i < |t.snapshots| && IsForeign(t.snapshots[i], t.results[i], Observe(d.files, t.snapshots[i].path));
    var seen := Observe(d.files, t.snapshots[i].path);
    ObservedPath(d.files, t.snapshots[i].path);
    ForeignByAlias(t.snapshots, t.results, i, seen);
    assert INDEX != LOG;
  }

  lemma ObservedPath(files: map<string, FileData>, path: string)
    ensures Observe(files, path).path == path
  {}
}
