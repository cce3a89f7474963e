/** Crash atomicity of accept: every disk a decision can leave behind, under any
    fate of its writes, is one of five phases, and recovery settles each of them. */
module DecisionAtomicity {
  import opened Wrappers
  import opened DecisionTypes
  import opened DecisionModel
  import opened DecisionRecovery

  // ---------------------------------------------------------------- phases

  /** An undecided proposal with no decision in progress. */
  ghost predicate Open(d: Disk, id: string)
  {
    d.journal.None? && d.record.Some? && d.record.value.id == id &&
    d.record.value.status == "proposed" && d.record.value.decision.None?
  }

  /** The inputs an accept was planned from. */
  datatype Choice = Choice(request: Request, now: Time, version: string, audit: Audit)

  ghost predicate PlannedBy(w: World, d0: Disk, id: string, t: Transaction, c: Choice)
    requires d0.record.Some?
  {
    c.request.action.Accept? &&
    PlanAudit(w, d0, d0.record.value, c.version, c.request, c.now) == Ok(c.audit) &&
    PlanAccept(w, d0, id, c.now, c.audit) == Ok(t.(stage := Prepared))
  }

  /** The document is written over an identical file that is also the index or the
      log, and is then overwritten by a different result. */
  predicate Torn(t: Transaction)
  {
    |t.snapshots| == |t.results| == 3 && t.results[0] == t.snapshots[0] &&
    ((t.results[0].path == t.results[1].path && t.results[0] != t.results[1]) ||
     (t.results[0].path == t.results[2].path && t.results[0] != t.results[2]))
  }

  /** A valid transaction planned on `d0`. */
  ghost predicate Planned(w: World, d0: Disk, id: string, t: Transaction)
    requires Open(d0, id)
  {
    ValidTransaction(w, t, id) && exists c :: PlannedBy(w, d0, id, t, c)
  }

  ghost predicate Between(files0: map<string, FileData>, files: map<string, FileData>, results: seq<Snapshot>)
  {
    forall p :: Observe(files, p) == Observe(files0, p) || Observe(files, p) in results
  }

  /** All three files are at their results, and no other file has changed. */
  ghost predicate AtResults(files0: map<string, FileData>, files: map<string, FileData>, results: seq<Snapshot>)
  {
    ObserveAll(files, Paths(results)) == results &&
    forall p :: p !in Paths(results) ==> Observe(files, p) == Observe(files0, p)
  }

  ghost predicate InFlight(w: World, d0: Disk, id: string, d: Disk)
    requires Open(d0, id)
  {
    d.journal.Some? && Planned(w, d0, id, d.journal.value) &&
    d == d0.(journal := d.journal, files := d.files) &&
    Between(d0.files, d.files, d.journal.value.results)
  }

  /** The record is accepted while the journal stands: all files are at their results, or the transaction is torn. */
  ghost predicate Recorded(w: World, d0: Disk, id: string, d: Disk)
    requires Open(d0, id)
  {
    d.journal.Some? && Planned(w, d0, id, d.journal.value) &&
    d == d0.(journal := d.journal, files := d.files, record := Some(d.journal.value.proposal)) &&
    Between(d0.files, d.files, d.journal.value.results) &&
    (AtResults(d0.files, d.files, d.journal.value.results) || Torn(d.journal.value))
  }

  ghost predicate AcceptedBy(w: World, d0: Disk, id: string, d: Disk, t: Transaction)
    requires Open(d0, id)
  {
    Planned(w, d0, id, t) && d == d0.(files := Written(d0.files, t.results, 3), record := Some(t.proposal)) &&
    (AtResults(d0.files, d.files, t.results) || Torn(t))
  }

  /** A torn transaction undone under its accepted record. */
  ghost predicate RevertedBy(w: World, d0: Disk, id: string, d: Disk, t: Transaction)
    requires Open(d0, id)
  {
    Planned(w, d0, id, t) && Torn(t) && d == d0.(record := Some(t.proposal))
  }

  ghost predicate Reverted(w: World, d0: Disk, id: string, d: Disk)
    requires Open(d0, id)
  {
    exists t :: RevertedBy(w, d0, id, d, t)
  }

  /** All three results are written, and the record is accepted and audited; the files equal the results unless the
      transaction is torn. */
  ghost predicate Accepted(w: World, d0: Disk, id: string, d: Disk)
    requires Open(d0, id)
  {
    exists t :: AcceptedBy(w, d0, id, d, t)
  }

  ghost predicate RejectedBy(w: World, d0: Disk, id: string, d: Disk, c: Choice)
    requires Open(d0, id)
  {
    c.request.action.Reject? && ValidRequest(c.request) && c.request.proposalId == id &&
    c.version == c.request.expectedVersion &&
    Describe(w, d0, id) == Ok((d0.record.value, c.version)) &&
    PlanAudit(w, d0, d0.record.value, c.version, c.request, c.now) == Ok(c.audit) &&
    d == d0.(record := Some(d0.record.value.(
      status := "rejected", reviewedAt := w.seconds(c.now), decision := Some(c.audit))))
  }

  ghost predicate Rejected(w: World, d0: Disk, id: string, d: Disk)
    requires Open(d0, id)
  {
    exists c :: RejectedBy(w, d0, id, d, c)
  }

  /** All files original and still proposed, or accepted, or rejected; no journal remains. */
  ghost predicate Settled(w: World, d0: Disk, id: string, d: Disk)
    requires Open(d0, id)
  {
    d == d0 || Accepted(w, d0, id, d) || Rejected(w, d0, id, d)
  }

  /** Settled, or a torn accept undone under its record. The files are all original or all written. */
  ghost predicate Ended(w: World, d0: Disk, id: string, d: Disk)
    requires Open(d0, id)
  {
    Settled(w, d0, id, d) || Reverted(w, d0, id, d)
  }

  ghost predicate Reachable(w: World, d0: Disk, id: string, d: Disk)
    requires Open(d0, id)
  {
    Ended(w, d0, id, d) || InFlight(w, d0, id, d) || Recorded(w, d0, id, d)
  }

  // ---------------------------------------------------------------- facts about a plan

  lemma ResultsFacts(w: World, files: map<string, FileData>, doc: Document, snapshots: seq<Snapshot>, now: Time)
    requires AcceptResults(w, files, doc, snapshots, now).Ok?
    ensures var r := AcceptResults(w, files, doc, snapshots, now).value;
      && |r| == |snapshots| == 3 && snapshots[0].path == doc.path && (forall s | s in r :: s.present)
      && Paths(r) == Paths(snapshots)
      && r[2].data == LogAfter(w, snapshots[2], now, doc.path)
  {}

  /** What a planned transaction takes from the disk and the chosen audit. */
  lemma PlanFacts(w: World, d: Disk, id: string, now: Time, audit: Audit)
    requires Open(d, id) && PlanAccept(w, d, id, now, audit).Ok?
    ensures var t := PlanAccept(w, d, id, now, audit).value; var p := d.record.value;
      && AllReadable(d.files, [p.targetPath, INDEX, LOG])
      && t.snapshots == ObserveAll(d.files, [p.targetPath, INDEX, LOG])
      && |t.results| == 3 && Paths(t.results) == Paths(t.snapshots) && (forall s | s in t.results :: s.present)
      && t.results[2].data == LogAfter(w, t.snapshots[2], now, p.targetPath)
      && t.proposal == p.(status := "accepted", reviewedAt := w.seconds(now), decision := Some(audit))
      && t.audit == audit
      && ReadCandidate(d, p.candidatePath) == Ok(t.candidate)
  {
    var p := d.record.value;
    var candidate := ReadCandidate(d, p.candidatePath).value;
    var doc := w.parse(p.targetPath, candidate).value;
    var snapshots := ObserveAll(d.files, [p.targetPath, INDEX, LOG]);
    ResultsFacts(w, d.files, doc, snapshots, now);
    assert Paths(snapshots)[0] == doc.path;
  }

  lemma ObservedPaths(files: map<string, FileData>, paths: seq<string>)
    ensures Paths(ObserveAll(files, paths)) == paths
    ensures Consistent(ObserveAll(files, paths)) && AsTaken(ObserveAll(files, paths))
  {}

  lemma PlannedFacts(w: World, d0: Disk, id: string, t: Transaction)
    requires Open(d0, id) && Planned(w, d0, id, t)
    ensures var p := d0.record.value;
      && Paths(t.snapshots) == Paths(t.results) == [p.targetPath, INDEX, LOG]
      && t.snapshots == ObserveAll(d0.files, Paths(t.snapshots)) && AllReadable(d0.files, Paths(t.snapshots))
      && Matched(t.snapshots, t.results) && (forall s | s in t.results :: s.present)
      && SameProposalBody(t.proposal, p) && t.proposal.status == "accepted" && t.proposal.decision == Some(t.audit)
      && t.audit.action.Accept?
      && ReadCandidate(d0, p.candidatePath) == Ok(t.candidate)
      && Version(w, d0, t.proposal) == Ok(t.audit.versionAfter)
  {
    var c :| PlannedBy(w, d0, id, t, c);
    PlanFacts(w, d0, id, c.now, c.audit);
    ObservedPaths(d0.files, [d0.record.value.targetPath, INDEX, LOG]);
    assert Version(w, d0, t.proposal) == Version(w, d0, t.proposal.(decision := None));
  }

  /** The log always grows, so its result always differs from its original. */
  lemma LogResultDiffers(w: World, d0: Disk, id: string, t: Transaction)
    requires Open(d0, id) && Planned(w, d0, id, t)
    ensures t.results[2] != t.snapshots[2]
    ensures exists now :: t.results[2].data == LogAfter(w, t.snapshots[2], now, d0.record.value.targetPath)
  {
    var c :| PlannedBy(w, d0, id, t, c);
    PlanFacts(w, d0, id, c.now, c.audit);
    assert t.results[2] in t.results;
    LogGrows(w, t.snapshots[2], c.now, d0.record.value.targetPath);
  }

  lemma LogGrows(w: World, before: Snapshot, now: Time, path: string)
    ensures before.present ==> |LogAfter(w, before, now, path)| > |before.data|
  {}

  // ---------------------------------------------------------------- files between original and result

  lemma RollbackRestoresOriginals(files0: map<string, FileData>, start: map<string, FileData>,
                                  files: map<string, FileData>, original: seq<Snapshot>, results: seq<Snapshot>)
    requires Matched(original, results) && original == ObserveAll(files0, Paths(original))
    requires Between(files0, start, results) && AtGoals(start, files, original, results)
    ensures files == files0
  {
    forall p ensures Observe(files, p) == Observe(files0, p) {
      OriginalsSeen(files0, start, original, results, p);
    }
    ObserveDetermines(files, files0);
  }

  lemma OriginalsSeen(files0: map<string, FileData>, start: map<string, FileData>,
                      original: seq<Snapshot>, results: seq<Snapshot>, p: string)
    requires Matched(original, results) && original == ObserveAll(files0, Paths(original))
    requires Between(files0, start, results)
    ensures Goal(original, results, Observe(start, p)) == Observe(files0, p)
  {
    var seen := Observe(start, p);
    forall s | s in original && s.path == p ensures s == Observe(files0, p) {
      var i :| 0 <= i < |original| && original[i] == s;
      assert Paths(original)[i] == p;
    }
  }

  lemma BetweenKept(files0: map<string, FileData>, start: map<string, FileData>, files: map<string, FileData>,
                    original: seq<Snapshot>, results: seq<Snapshot>)
    requires Matched(original, results) && original == ObserveAll(files0, Paths(original))
    requires Between(files0, start, results) && Restoring(start, files, original, results, 0)
    ensures Between(files0, files, results)
  {
    forall p ensures Observe(files, p) == Observe(files0, p) || Observe(files, p) in results {
      OriginalsSeen(files0, start, original, results, p);
    }
  }

  lemma ResultsAreBetween(files0: map<string, FileData>, files: map<string, FileData>, results: seq<Snapshot>)
    requires AtResults(files0, files, results)
    ensures Between(files0, files, results)
  {
    forall p | p in Paths(results) ensures Observe(files, p) in results {
      var i :| 0 <= i < |results| && Paths(results)[i] == p;
      assert ObserveAll(files, Paths(results))[i] == results[i];
    }
  }

  // ---------------------------------------------------------------- the rollback of accept

  /** A transaction in flight with other files between original and result is still in flight. */
  lemma InFlightWith(w: World, d0: Disk, id: string, d: Disk, files: map<string, FileData>)
    requires Open(d0, id) && InFlight(w, d0, id, d)
    requires var t := d.journal.value;
      Matched(t.snapshots, t.results) && Restoring(d.files, files, t.snapshots, t.results, 0)
    ensures InFlight(w, d0, id, d.(files := files))
  {
    var t := d.journal.value;
    PlannedFacts(w, d0, id, t);
    BetweenKept(d0.files, d.files, files, t.snapshots, t.results);
  }

  /** Rolling back a transaction in flight leaves it in flight or undoes it entirely. */
  lemma AbortEffect(w: World, d0: Disk, id: string, m: Machine, t: Transaction, cause: Error)
    requires Open(d0, id) && InFlight(w, d0, id, m.disk)
    requires t.snapshots == m.disk.journal.value.snapshots && t.results == m.disk.journal.value.results
    ensures var r := Abort(m, t, cause);
      !r.1.Ok? && (r.0.disk == d0 || InFlight(w, d0, id, r.0.disk))
  {
    PlannedFacts(w, d0, id, m.disk.journal.value);
    RestoreEffect(m, t.snapshots, t.results);
    var r := Restore(m, t.snapshots, t.results);
    InFlightWith(w, d0, id, m.disk, r.0.disk.files);
    if r.1.Ok? {
      RollbackRestoresOriginals(d0.files, m.disk.files, r.0.disk.files, t.snapshots, t.results);
    }
    FinishAbortEffect(w, d0, id, r.0, r.1, cause);
  }

  lemma FinishAbortEffect(w: World, d0: Disk, id: string, m: Machine, external: Outcome<bool>, cause: Error)
    requires Open(d0, id) && InFlight(w, d0, id, m.disk)
    requires external.Ok? ==> m.disk.files == d0.files
    ensures var r := FinishAbort(m, external, cause);
      !r.1.Ok? && (r.0.disk == d0 || r.0.disk == m.disk)
  {}

  // ---------------------------------------------------------------- installing the results

  /** The files after the first `n` results are written. */
  ghost function Written(files0: map<string, FileData>, results: seq<Snapshot>, n: nat): map<string, FileData>
    requires n <= |results|
  {
    if n == 0 then files0 else Put(Written(files0, results, n - 1), results[n - 1])
  }

  lemma {:induction false} WrittenIsBetween(files0: map<string, FileData>, results: seq<Snapshot>, n: nat)
    requires n <= |results| && forall s | s in results :: s.present
    ensures Between(files0, Written(files0, results, n), results)
  {
    if n > 0 {
      WrittenIsBetween(files0, results, n - 1);
      assert results[n - 1] in results;
      PutIsBetween(files0, Written(files0, results, n - 1), results, n - 1);
    }
  }

  lemma PutIsBetween(files0: map<string, FileData>, files: map<string, FileData>, results: seq<Snapshot>, k: nat)
    requires k < |results| && results[k].present && Between(files0, files, results)
    ensures Between(files0, Put(files, results[k]), results)
  {
    forall p ensures Observe(Put(files, results[k]), p) == Observe(files0, p) ||
      Observe(Put(files, results[k]), p) in results {
      PutObserved(files, results[k], p);
    }
  }

  ghost predicate Checked(files0: map<string, FileData>, results: seq<Snapshot>, expected: seq<Snapshot>, i: nat,
    n: nat)
    requires n <= |results| && n <= |expected|
  {
    forall k | i <= k < n :: Observe(Written(files0, results, k), results[k].path) == expected[k]
  }

  /** Under every fate a prefix of the results is written; success means all of them,
      each over the snapshot it expected. */
  lemma {:induction false} WriteCanonicalEffect(m: Machine, files0: map<string, FileData>, results: seq<Snapshot>,
                                                expected: seq<Snapshot>, i: nat, n: nat)
    returns (k: nat)
    requires i <= n <= |results| && n <= |expected| && m.disk.files == Written(files0, results, i)
    ensures var r := WriteCanonical(m, results, expected, i, n);
      i <= k <= n && r.0.disk == m.disk.(files := Written(files0, results, k)) &&
      (r.1.Ok? ==> k == n && Checked(files0, results, expected, i, n))
    decreases n - i
  {
    k := i;
    if i < n && results[i].present && results[i].path == expected[i].path {
      var current := SnapshotFiles(m.disk.files, [results[i].path]);
      if current.Ok? && current.value[0] == expected[i] {
        var (m1, o) := PutSnapshot(m, results[i]);
        if o.Ok? {
          k := WriteCanonicalEffect(m1, files0, results, expected, i + 1, n);
        }
      }
    }
  }

  /** What three writes leave: each file is as the last write of its path made it. */
  lemma ThreeWritten(f0: map<string, FileData>, r: seq<Snapshot>, p: string)
    requires |r| == 3 && forall s | s in r :: s.present
    ensures Observe(Written(f0, r, 1), p) == if p == r[0].path then r[0] else Observe(f0, p)
    ensures Observe(Written(f0, r, 2), p) == if p == r[1].path then r[1] else Observe(Written(f0, r, 1), p)
    ensures Observe(Written(f0, r, 3), p) == if p == r[2].path then r[2] else Observe(Written(f0, r, 2), p)
  {
    var f1, f2 := Written(f0, r, 1), Written(f0, r, 2);
    assert Written(f0, r, 0) == f0;
    assert f1 == Put(f0, r[0]);
    assert f2 == Put(f1, r[1]);
    assert Written(f0, r, 3) == Put(f2, r[2]);
    hide Written;
    PutObserved(f0, r[0], p);
    PutObserved(f1, r[1], p);
    PutObserved(f2, r[2], p);
  }

  /** The last write of a path decides it, so only the first result can have been written over. */
  lemma ThreeAtResults(f0: map<string, FileData>, r: seq<Snapshot>)
    requires |r| == 3 && (forall s | s in r :: s.present) && r[1].path != r[2].path
    ensures AtResults(f0, Written(f0, r, 3), r) <==>
      (r[0].path == r[1].path ==> r[0] == r[1]) && (r[0].path == r[2].path ==> r[0] == r[2])
  {
    var f3 := Written(f0, r, 3);
    hide Written, Observe;
    assert Paths(r) == [r[0].path, r[1].path, r[2].path];
    forall p ensures p !in Paths(r) ==> Observe(f3, p) == Observe(f0, p) {
      ThreeWritten(f0, r, p);
    }
    ThreeWritten(f0, r, r[0].path);
    ThreeWritten(f0, r, r[1].path);
    ThreeWritten(f0, r, r[2].path);
    assert ObserveAll(f3, Paths(r)) == r <==> Observe(f3, r[0].path) == r[0];
  }

  /** Files at three results are the files three writes leave. */
  lemma AtResultsIsWritten(f0: map<string, FileData>, files: map<string, FileData>, r: seq<Snapshot>)
    requires |r| == 3 && (forall s | s in r :: s.present) && r[1].path != r[2].path && AtResults(f0, files, r)
    ensures files == Written(f0, r, 3)
  {
    var f3 := Written(f0, r, 3);
    hide Written, Observe;
    forall i | 0 <= i < 3 ensures Observe(files, r[i].path) == r[i] {
      assert ObserveAll(files, Paths(r))[i] == Observe(files, Paths(r)[i]);
    }
    assert Paths(r) == [r[0].path, r[1].path, r[2].path];
    forall p ensures Observe(files, p) == Observe(f3, p) {
      ThreeWritten(f0, r, p);
    }
    ObserveDetermines(files, f3);
  }

  /** The results of a plan are three files that are present, index and log apart. */
  lemma PlannedShape(w: World, d0: Disk, id: string, t: Transaction)
    requires Open(d0, id) && Planned(w, d0, id, t)
    ensures |t.results| == |t.snapshots| == 3 && (forall s | s in t.results :: s.present)
    ensures t.results[1].path == INDEX && t.results[2].path == LOG && INDEX != LOG
  {
    PlannedFacts(w, d0, id, t);
    assert Paths(t.results)[1] == INDEX && Paths(t.results)[2] == LOG;
  }

  /** Files at the results of a plan are those its writes leave, and the plan is not torn. */
  lemma PlannedAtResults(w: World, d0: Disk, id: string, t: Transaction, files: map<string, FileData>)
    requires Open(d0, id) && Planned(w, d0, id, t)
    ensures |t.results| == 3
    ensures AtResults(d0.files, files, t.results) ==> files == Written(d0.files, t.results, 3) && !Torn(t)
  {
    PlannedShape(w, d0, id, t);
    hide Planned, Written, Observe;
    if AtResults(d0.files, files, t.results) {
      AtResultsIsWritten(d0.files, files, t.results);
      forall i | 0 <= i < 3 ensures Observe(files, t.results[i].path) == t.results[i] {
        assert ObserveAll(files, Paths(t.results))[i] == Observe(files, Paths(t.results)[i]);
      }
    }
  }

  /** Of three writes, each over the snapshot it expects, the first is undone exactly when the transaction is torn. */
  lemma ThreeChecked(f0: map<string, FileData>, t: Transaction)
    requires |t.results| == |t.snapshots| == 3 && (forall s | s in t.results :: s.present)
    requires t.results[1].path != t.results[2].path && Checked(f0, t.results, t.snapshots, 0, 3)
    requires forall i | 0 <= i < 3 :: t.snapshots[i] == Observe(f0, t.results[i].path)
    ensures AtResults(f0, Written(f0, t.results, 3), t.results) <==> !Torn(t)
  {
    var r := t.results;
    assert Observe(Written(f0, r, 1), r[1].path) == t.snapshots[1];
    assert Observe(Written(f0, r, 2), r[2].path) == t.snapshots[2];
    hide Written, Observe, Checked, AtResults;
    ThreeAtResults(f0, r);
    ThreeWritten(f0, r, r[1].path);
    ThreeWritten(f0, r, r[2].path);
  }

  /** Three checked writes put every file at its result, unless the transaction is torn. */
  lemma WrittenAtResults(w: World, d0: Disk, id: string, t: Transaction)
    requires Open(d0, id) && Planned(w, d0, id, t) && Checked(d0.files, t.results, t.snapshots, 0, 3)
    ensures AtResults(d0.files, Written(d0.files, t.results, 3), t.results) <==> !Torn(t)
  {
    PlannedFacts(w, d0, id, t);
    hide Planned, Matched, Written, Observe, Checked, Open, AtResults, Torn;
    assert Paths(t.results)[1] == INDEX && Paths(t.results)[2] == LOG && INDEX != LOG;
    assert forall i | 0 <= i < 3 ::
      ObserveAll(d0.files, Paths(t.snapshots))[i] == Observe(d0.files, Paths(t.results)[i]);
    ThreeChecked(d0.files, t);
  }

  // ---------------------------------------------------------------- accept

  /** All results are written, and the files are at them unless the transaction is torn. */
  ghost predicate Finished(d0: Disk, files: map<string, FileData>, t: Transaction)
    requires |t.results| == 3
  {
    files == Written(d0.files, t.results, 3) && (AtResults(d0.files, files, t.results) || Torn(t))
  }

  /** Writing the record and removing the journal, under every fate. */
  lemma RecordEffect(w: World, d0: Disk, id: string, m: Machine, t: Transaction)
    requires Open(d0, id) && InFlight(w, d0, id, m.disk)
    requires m.disk.journal == Some(t.(stage := DecisionTypes.Canonical))
    requires |t.results| == 3 && Finished(d0, m.disk.files, t)
    ensures var r := RecordDecision(m, t);
      Reachable(w, d0, id, r.0.disk) &&
      (r.1.Ok? ==> r.1.value == t.proposal && AcceptedBy(w, d0, id, r.0.disk, t.(stage := DecisionTypes.Canonical)))
  {
    hide ValidField;
    var t' := t.(stage := DecisionTypes.Canonical);
    var (m1, o1) := WriteRecord(m, t.proposal);
    if o1.Ok? {
      assert Recorded(w, d0, id, m1.disk);
      var (m2, o2) := RemoveJournal(m1);
      if o2.Ok? {
        assert AcceptedBy(w, d0, id, m2.disk, t');
      }
    } else if o1.Err? {
      AbortEffect(w, d0, id, m1, t, o1.error);
    }
  }

  lemma StageInFlight(w: World, d0: Disk, id: string, d: Disk, stage: Stage)
    requires Open(d0, id) && InFlight(w, d0, id, d)
    ensures InFlight(w, d0, id, d.(journal := Some(d.journal.value.(stage := stage))))
  {
    var t := d.journal.value;
    var t' := t.(stage := stage);
    var c :| PlannedBy(w, d0, id, t, c);
    assert PlannedBy(w, d0, id, t', c);
  }

  /** Writing the stage, the record and removing the journal, under every fate. */
  lemma CommitEffect(w: World, d0: Disk, id: string, m: Machine, t: Transaction)
    requires Open(d0, id) && m.disk.journal == Some(t) && InFlight(w, d0, id, m.disk)
    requires |t.results| == 3 && Finished(d0, m.disk.files, t)
    ensures var r := Commit(w, m, t);
      Reachable(w, d0, id, r.0.disk) &&
      (r.1.Ok? ==> r.1.value == t.proposal && AcceptedBy(w, d0, id, r.0.disk, t.(stage := DecisionTypes.Canonical)))
  {
    hide ValidField;
    StageInFlight(w, d0, id, m.disk, DecisionTypes.Canonical);
    var (m1, o1) := WriteJournal(w, m, t.(stage := DecisionTypes.Canonical));
    if o1.Ok? {
      RecordEffect(w, d0, id, m1, t);
    } else if o1.Err? {
      AbortEffect(w, d0, id, m1, t, o1.error);
    }
  }

  lemma WrittenInFlight(w: World, d0: Disk, id: string, d: Disk, t: Transaction, k: nat)
    requires Open(d0, id) && Planned(w, d0, id, t) && k <= 3
    requires d == d0.(journal := Some(t), files := Written(d0.files, t.results, k))
    ensures InFlight(w, d0, id, d)
  {
    PlannedFacts(w, d0, id, t);
    WrittenIsBetween(d0.files, t.results, k);
  }

  /** The journalled part of accept, under every fate. */
  lemma WriteTargetEffect(w: World, d0: Disk, id: string, m: Machine, t: Transaction)
    requires Open(d0, id) && Planned(w, d0, id, t) && m.disk == d0.(journal := Some(t))
    ensures var r := WriteTarget(w, m, t);
      Reachable(w, d0, id, r.0.disk) &&
      (r.1.Ok? ==> r.1.value == t.proposal && AcceptedBy(w, d0, id, r.0.disk, t.(stage := Canonical)))
  {
    hide ValidField;
    var k1 := WriteCanonicalEffect(m, d0.files, t.results, t.snapshots, 0, 1);
    var (m1, o1) := WriteCanonical(m, t.results, t.snapshots, 0, 1);
    WrittenInFlight(w, d0, id, m1.disk, t, k1);
    if !o1.Ok? {
      if o1.Err? {
        AbortEffect(w, d0, id, m1, t, o1.error);
      }
    } else {
      var k2 := WriteCanonicalEffect(m1, d0.files, t.results, t.snapshots, 1, 3);
      var (m2, o2) := WriteCanonical(m1, t.results, t.snapshots, 1, 3);
      WrittenInFlight(w, d0, id, m2.disk, t, k2);
      if !o2.Ok? {
        if o2.Err? {
          AbortEffect(w, d0, id, m2, t, o2.error);
        }
      } else {
        WrittenAtResults(w, d0, id, t);
        CommitEffect(w, d0, id, m2, t);
      }
    }
  }

  // ---------------------------------------------------------------- recovery

  lemma ResultPath(results: seq<Snapshot>, s: Snapshot)
    ensures s in results ==> s.path in Paths(results)
  {
    forall i | 0 <= i < |results| ensures results[i].path in Paths(results) {
      assert Paths(results)[i] == results[i].path;
    }
  }

  /** Files between original and result are examined as results exactly when they are at them. */
  lemma ForwardAtResults(w: World, d0: Disk, id: string, d: Disk)
    requires Open(d0, id) && d.journal.Some? && Planned(w, d0, id, d.journal.value) && d.candidates == d0.candidates
    requires Between(d0.files, d.files, d.journal.value.results)
    ensures Forward(d) <==> AtResults(d0.files, d.files, d.journal.value.results)
  {
    var t := d.journal.value;
    PlannedFacts(w, d0, id, t);
    if Forward(d) {
      forall p | p !in Paths(t.results) ensures Observe(d.files, p) == Observe(d0.files, p) {
        ResultPath(t.results, Observe(d.files, p));
      }
    }
  }

  lemma RecoverInFlight(w: World, d0: Disk, id: string, m: Machine)
    requires Open(d0, id) && InFlight(w, d0, id, m.disk)
    ensures var d := Recover(w, m, id).0.disk;
      Reachable(w, d0, id, d) && (d.journal.None? ==> Ended(w, d0, id, d))
  {
    var t := m.disk.journal.value;
    PlannedFacts(w, d0, id, t);
    RecoverBranches(w, m, id);
    if Examinable(m.disk) {
      ForwardAtResults(w, d0, id, m.disk);
      if Forward(m.disk) {
        RollForwardInFlight(w, d0, id, m);
      } else {
        RollBackEffect(w, m, id, ReadCandidate(m.disk, t.proposal.candidatePath) == Ok(t.candidate));
        var d := Recover(w, m, id).0.disk;
        InFlightWith(w, d0, id, m.disk, d.files);
        if d.journal.None? {
          RollbackRestoresOriginals(d0.files, m.disk.files, d.files, t.snapshots, t.results);
        }
      }
    }
  }

  lemma RollForwardOpen(m: Machine, t: Transaction, id: string)
    requires m.disk.record.Some? && m.disk.record.value.id == id && m.disk.record.value.decision.None?
    ensures var d := RollForward(m, t, id).0.disk;
      d == m.disk || d == m.disk.(record := Some(t.proposal)) ||
      d == m.disk.(record := Some(t.proposal), journal := None)
  {}

  lemma RollForwardInFlight(w: World, d0: Disk, id: string, m: Machine)
    requires Open(d0, id) && InFlight(w, d0, id, m.disk) &&
      AtResults(d0.files, m.disk.files, m.disk.journal.value.results)
    ensures var t := m.disk.journal.value; var d := RollForward(m, t, id).0.disk;
      d == m.disk || Recorded(w, d0, id, d) || AcceptedBy(w, d0, id, d, t)
  {
    var t := m.disk.journal.value;
    RollForwardOpen(m, t, id);
    PlannedAtResults(w, d0, id, t, m.disk.files);
    ResultsAreBetween(d0.files, m.disk.files, t.results);
    assert Recorded(w, d0, id, m.disk.(record := Some(t.proposal)));
  }

  /** From a record at its results the journal is removed or nothing happens. */
  lemma RecoverRecorded(w: World, d0: Disk, id: string, m: Machine)
    requires Open(d0, id) && Recorded(w, d0, id, m.disk) && !Torn(m.disk.journal.value)
    ensures var d := Recover(w, m, id).0.disk;
      d == m.disk || (d == m.disk.(journal := None) && AcceptedBy(w, d0, id, d, m.disk.journal.value))
  {
    var t := m.disk.journal.value;
    PlannedFacts(w, d0, id, t);
    PlannedAtResults(w, d0, id, t, m.disk.files);
    RecoverBranches(w, m, id);
    assert Forward(m.disk);
    assert SameProposal(t.proposal, t.proposal);
  }

  /** A torn transaction is never at its results, so it is rolled back under its record: entirely, or with the journal
      still there. */
  lemma RecoverTorn(w: World, d0: Disk, id: string, m: Machine)
    requires Open(d0, id) && Recorded(w, d0, id, m.disk) && Torn(m.disk.journal.value)
    ensures var d := Recover(w, m, id).0.disk;
      d.record == m.disk.record && (Recorded(w, d0, id, d) || RevertedBy(w, d0, id, d, m.disk.journal.value))
  {
    var t := m.disk.journal.value;
    PlannedFacts(w, d0, id, t);
    RecoverBranches(w, m, id);
    if Examinable(m.disk) {
      TornStaysBack(w, d0, id, m.disk);
      RollBackEffect(w, m, id, ReadCandidate(m.disk, t.proposal.candidatePath) == Ok(t.candidate));
      var d := Recover(w, m, id).0.disk;
      hide Planned, Torn, Matched, Recover;
      BetweenKept(d0.files, m.disk.files, d.files, t.snapshots, t.results);
      if d.journal.None? {
        RollbackRestoresOriginals(d0.files, m.disk.files, d.files, t.snapshots, t.results);
      }
    }
  }

  lemma TornStaysBack(w: World, d0: Disk, id: string, d: Disk)
    requires Open(d0, id) && Recorded(w, d0, id, d) && Torn(d.journal.value)
    ensures !Forward(d)
  {
    ForwardAtResults(w, d0, id, d);
    PlannedAtResults(w, d0, id, d.journal.value, d.files);
    hide *;
  }

  predicate HasAudit(d: Disk)
  {
    d.record.Some? && d.record.value.decision.Some?
  }

  /** What a decision does to a disk that carries an audit: the record stays, the files stay unless a torn transaction
      is undone, and without a journal nothing changes. */
  ghost predicate Keeps(d: Disk, after: Disk)
  {
    HasAudit(d) ==>
      after == d.(journal := after.journal, files := after.files) && (d.journal.None? ==> after == d) &&
      (d.journal.Some? && !Torn(d.journal.value) ==> after.files == d.files)
  }

  /** An outcome of recovery: among the phases, ended once the journal is gone,
      successful only then, and never undoing what a record says. */
  ghost predicate Settling(w: World, d0: Disk, id: string, d: Disk, after: Disk, ok: bool)
    requires Open(d0, id)
  {
    Reachable(w, d0, id, after) && (after.journal.None? ==> Ended(w, d0, id, after)) &&
    (ok ==> after.journal.None?) && Keeps(d, after)
  }

  /** Recovery under every fate, from every phase. */
  lemma RecoverSettles(w: World, d0: Disk, id: string, m: Machine)
    requires Open(d0, id) && Reachable(w, d0, id, m.disk)
    ensures var r := Recover(w, m, id); Settling(w, d0, id, m.disk, r.0.disk, r.1.Ok?)
  {
    hide Recover, Torn, Between, AtResults, Planned;
    if m.disk.journal.None? {
      RecoverNothing(w, m, id);
    } else if InFlight(w, d0, id, m.disk) {
      RecoverInFlight(w, d0, id, m);
      PlannedIsValid(w, d0, id, m.disk.journal.value);
      RecoverSuccessClears(w, m, id);
      assert !HasAudit(m.disk);
    } else {
      PlannedIsValid(w, d0, id, m.disk.journal.value);
      RecoverSuccessClears(w, m, id);
      if Torn(m.disk.journal.value) {
        RecoverTorn(w, d0, id, m);
      } else {
        RecoverRecorded(w, d0, id, m);
      }
    }
  }

  lemma PlannedIsValid(w: World, d0: Disk, id: string, t: Transaction)
    requires Open(d0, id) && Planned(w, d0, id, t)
    ensures ValidTransaction(w, t, id)
  {}

  lemma RecoverNothing(w: World, m: Machine, id: string)
    requires m.disk.journal.None?
    ensures Recover(w, m, id) == (m, Ok(()))
  {}

  lemma RecoverSuccessClears(w: World, m: Machine, id: string)
    requires m.disk.journal.Some? && ValidTransaction(w, m.disk.journal.value, id)
    ensures Recover(w, m, id).1.Ok? ==> Recover(w, m, id).0.disk.journal.None?
  {
    RecoverBranches(w, m, id);
  }
}
