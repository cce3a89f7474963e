/** The one way a decision can tear, and why there is no other: an accept whose
    target is the index or the log itself, rewritten with its own bytes. */
module DecisionTearing {
  import opened Wrappers
  import opened DecisionTypes
  import opened DecisionModel
  import opened DecisionRecovery
  import opened DecisionAtomicity
  import opened DecisionRuns

  /** A decision interrupted anywhere, then a recovery that clears the journal, settles. */
  ghost predicate Atomic(w: World, d0: Disk, id: string, r: Request, now: Time, script: seq<Fault>,
    recovery: seq<Fault>)
    requires Open(d0, id)
  {
    var d := Recover(w, Machine(Decide(w, Machine(d0, script), r, now).0.disk, recovery), id).0.disk;
    d.journal.None? ==> Settled(w, d0, id, d)
  }

  const ALL_SEVEN := [Installed, Installed, Installed, Installed, Installed, Installed, Installed]
  const FIRST_SIX := [Installed, Installed, Installed, Installed, Installed, Installed]

  /** Success does not depend on the script beyond the steps it takes. */
  lemma {:induction false} WriteCanonicalRuns(m: Machine, other: Machine, results: seq<Snapshot>,
    expected: seq<Snapshot>,
                                              i: nat, n: nat)
    requires i <= n <= |results| && n <= |expected| && m.disk == other.disk
    requires WriteCanonical(m, results, expected, i, n).1.Ok?
    requires |other.script| >= n - i && forall k | 0 <= k < n - i :: other.script[k].Installed?
    ensures var r := WriteCanonical(other, results, expected, i, n);
      r.1.Ok? && r.0 == Machine(WriteCanonical(m, results, expected, i, n).0.disk, other.script[n - i..])
    decreases n - i
  {
    if i < n {
      var (m1, o1) := PutSnapshot(m, results[i]);
      var (m2, o2) := PutSnapshot(other, results[i]);
      assert o1.Ok? && m2 == Machine(m1.disk, other.script[1..]);
      WriteCanonicalRuns(m1, m2, results, expected, i + 1, n);
      assert other.script[1..][n - i - 1..] == other.script[n - i..];
    }
  }

  /** The disk of an accept killed right before it removes the journal. */
  ghost function Interrupted(d0: Disk, t: Transaction): Disk
    requires |t.results| == 3
  {
    d0.(journal := Some(t.(stage := DecisionTypes.Canonical)), record := Some(t.proposal),
        files := Written(d0.files, t.results, 3))
  }

  lemma InterruptedWrites(w: World, d0: Disk, m: Machine, t: Transaction)
    requires |t.results| == |t.snapshots| == 3 && m.disk == d0.(journal := Some(t))
    requires WriteTarget(w, m, t).1.Ok?
    ensures Checked(d0.files, t.results, t.snapshots, 0, 3)
    ensures WriteTarget(w, Machine(m.disk, FIRST_SIX[1..]), t).0.disk == Interrupted(d0, t)
  {
    var s := Machine(m.disk, FIRST_SIX[1..]);
    var (m1, o1) := WriteCanonical(m, t.results, t.snapshots, 0, 1);
    if !o1.Ok? {
      BailFails(m1, t, o1);
    }
    var k1 := WriteCanonicalEffect(m, d0.files, t.results, t.snapshots, 0, 1);
    WriteCanonicalRuns(m, s, t.results, t.snapshots, 0, 1);
    var (s1, _) := WriteCanonical(s, t.results, t.snapshots, 0, 1);
    var (m2, o2) := WriteCanonical(m1, t.results, t.snapshots, 1, 3);
    if !o2.Ok? {
      BailFails(m2, t, o2);
    }
    var k2 := WriteCanonicalEffect(m1, d0.files, t.results, t.snapshots, 1, 3);
    WriteCanonicalRuns(m1, s1, t.results, t.snapshots, 1, 3);
    var (s2, _) := WriteCanonical(s1, t.results, t.snapshots, 1, 3);
    assert s2.script == [Installed, Installed];
    InterruptedCommit(w, m2, s2, t);
  }

  lemma InterruptedCommit(w: World, m: Machine, s: Machine, t: Transaction)
    requires s.disk == m.disk && s.script == [Installed, Installed] && Commit(w, m, t).1.Ok?
    ensures Commit(w, s, t).0.disk ==
      m.disk.(journal := Some(t.(stage := DecisionTypes.Canonical)), record := Some(t.proposal))
  {
    var (m1, o1) := WriteJournal(w, m, t.(stage := DecisionTypes.Canonical));
    if !o1.Ok? {
      BailFails(m1, t, o1);
    }
  }

  lemma AcceptReachesInterrupted(w: World, d0: Disk, id: string, now: Time, audit: Audit)
    requires Open(d0, id) && AcceptProposal(w, Machine(d0, ALL_SEVEN), id, now, audit).1.Ok?
    ensures var plan := PlanAccept(w, d0, id, now, audit);
      plan.Ok? && ValidTransaction(w, plan.value, id) &&
      Checked(d0.files, plan.value.results, plan.value.snapshots, 0, 3) &&
      AcceptProposal(w, Machine(d0, FIRST_SIX), id, now, audit).0.disk == Interrupted(d0, plan.value)
  {
    var t := PlanAccept(w, d0, id, now, audit).value;
    PlanFacts(w, d0, id, now, audit);
    var m := WriteJournal(w, Machine(d0, ALL_SEVEN), t).0;
    InterruptedWrites(w, d0, m, t);
    assert WriteJournal(w, Machine(d0, FIRST_SIX), t) == (Machine(m.disk, FIRST_SIX[1..]), Ok(()));
  }

  lemma DecideOpens(w: World, d0: Disk, id: string, s: seq<Fault>, r: Request, now: Time, audit: Audit)
    requires Open(d0, id) && r.proposalId == id && ValidRequest(r)
    requires Describe(w, d0, id) == Ok((d0.record.value, r.expectedVersion))
    requires PlanAudit(w, d0, d0.record.value, r.expectedVersion, r, now) == Ok(audit)
    ensures Decide(w, Machine(d0, s), r, now) == Enact(w, Machine(d0, s), r, now, audit)
  {
    RecoverNothing(w, Machine(d0, s), id);
  }

  lemma DecidePlans(w: World, d0: Disk, id: string, s: seq<Fault>, r: Request, now: Time)
    requires Open(d0, id) && r.proposalId == id && Decide(w, Machine(d0, s), r, now).1.Ok?
    ensures ValidRequest(r) && Describe(w, d0, id) == Ok((d0.record.value, r.expectedVersion))
    ensures PlanAudit(w, d0, d0.record.value, r.expectedVersion, r, now).Ok?
  {
    RecoverNothing(w, Machine(d0, s), id);
  }

  /** A decision that goes through when undisturbed reaches the interrupted disk when
      it is killed before its last step. */
  lemma DecideReachesInterrupted(w: World, d0: Disk, id: string, r: Request, now: Time) returns (t: Transaction)
    requires Open(d0, id) && r.proposalId == id && r.action.Accept?
    requires Decide(w, Machine(d0, ALL_SEVEN), r, now).1.Ok?
    ensures Planned(w, d0, id, t) && Checked(d0.files, t.results, t.snapshots, 0, 3)
    ensures Decide(w, Machine(d0, FIRST_SIX), r, now).0.disk == Interrupted(d0, t)
  {
    DecidePlans(w, d0, id, ALL_SEVEN, r, now);
    var audit := PlanAudit(w, d0, d0.record.value, r.expectedVersion, r, now).value;
    DecideOpens(w, d0, id, ALL_SEVEN, r, now, audit);
    DecideOpens(w, d0, id, FIRST_SIX, r, now, audit);
    AcceptReachesInterrupted(w, d0, id, now, audit);
    t := PlanAccept(w, d0, id, now, audit).value;
    PlannedByChoice(w, d0, id, t, Choice(r, now, r.expectedVersion, audit));
    EnactKilled(w, d0, FIRST_SIX, r, now, audit);
  }

  lemma PlannedByChoice(w: World, d0: Disk, id: string, t: Transaction, c: Choice)
    requires Open(d0, id) && c.request.action.Accept? && ValidTransaction(w, t, id)
    requires PlanAudit(w, d0, d0.record.value, c.version, c.request, c.now) == Ok(c.audit)
    requires PlanAccept(w, d0, id, c.now, c.audit) == Ok(t)
    ensures Planned(w, d0, id, t)
  {
    assert t.stage == Prepared;
    assert PlannedBy(w, d0, id, t, c);
  }

  lemma EnactKilled(w: World, d: Disk, s: seq<Fault>, r: Request, now: Time, audit: Audit)
    requires r.action.Accept?
    ensures Enact(w, Machine(d, s), r, now, audit).0 == AcceptProposal(w, Machine(d, s), r.proposalId, now, audit).0
  {}

  /** Recovery of a torn, recorded accept rolls the files back under an accepted record. */
  lemma TornRecovery(w: World, d0: Disk, id: string, t: Transaction)
    requires Open(d0, id) && Planned(w, d0, id, t) && Torn(t) && Checked(d0.files, t.results, t.snapshots, 0, 3)
    ensures RecoveredDisk(w, Interrupted(d0, t), id) == d0.(record := Some(t.proposal))
  {
    var d := Interrupted(d0, t);
    PlannedFacts(w, d0, id, t);
    JournalPaths(w, t, id);
    WrittenIsBetween(d0.files, t.results, 3);
    WrittenAtResults(w, d0, id, t);
    InterruptedIsReadable(w, d0, id, t);
    NotForward(w, d0, id, t);
    hide Planned, Checked, Torn, Open, Observe, Written, Readable;
    RolledBackDisk(w, d, id);
    RollbackRestoresOriginals(d0.files, d.files, RecoveredDisk(w, d, id).files, t.snapshots, t.results);
  }

  /** The disk from which that recovery starts is crossed: the recovery reports a conflict, but one that is cut off when
      the files are back, and is then made again, reports none. */
  lemma TornIsCrossed(w: World, d0: Disk, id: string, t: Transaction)
    requires Open(d0, id) && Planned(w, d0, id, t) && Torn(t) && Checked(d0.files, t.results, t.snapshots, 0, 3)
    ensures Crossed(Interrupted(d0, t))
  {
    hide ValidField;
    var d := Interrupted(d0, t);
    PlannedFacts(w, d0, id, t);
    PlannedShape(w, d0, id, t);
    NotForward(w, d0, id, t);
    WrittenIsBetween(d0.files, t.results, 3);
    ThreeWritten(d0.files, t.results, t.results[0].path);
    hide Planned, Checked, Written, Open, Forward, Observe;
    assert Paths(t.snapshots)[0] == Paths(t.results)[0];
    assert IsForeign(t.snapshots[0], t.results[0], Observe(d.files, t.snapshots[0].path));
    forall i | 0 <= i < |t.snapshots| ensures !IsStrange(t.snapshots, t.results,
      Observe(d.files, t.snapshots[i].path)) {
      assert t.snapshots[i] == ObserveAll(d0.files, Paths(t.snapshots))[i];
      assert t.snapshots[i] in t.snapshots;
    }
  }

  lemma InterruptedIsReadable(w: World, d0: Disk, id: string, t: Transaction)
    requires Open(d0, id) && Planned(w, d0, id, t)
    ensures forall p | p in Paths(t.snapshots) :: Readable(Interrupted(d0, t).files, p)
  {
    PlannedFacts(w, d0, id, t);
    WrittenIsBetween(d0.files, t.results, 3);
    var d := Interrupted(d0, t);
    forall p | p in Paths(t.snapshots) ensures Readable(d.files, p) {
      assert Readable(d0.files, p);
      assert |Observe(d.files, p).data| <= MAX_DOCUMENT_BYTES;
    }
  }

  lemma NotForward(w: World, d0: Disk, id: string, t: Transaction)
    requires Open(d0, id) && Planned(w, d0, id, t) && Torn(t) && Checked(d0.files, t.results, t.snapshots, 0, 3)
    ensures !Forward(Interrupted(d0, t))
  {
    PlannedFacts(w, d0, id, t);
    WrittenAtResults(w, d0, id, t);
    WrittenIsBetween(d0.files, t.results, 3);
    var files := Written(d0.files, t.results, 3);
    hide Planned, Checked, Matched, Written;
    forall p | p !in Paths(t.results) ensures Observe(files, p) == Observe(d0.files, p) {
      ResultPath(t.results, Observe(files, p));
    }
  }

  lemma AcceptChangesLog(w: World, d0: Disk, id: string, d: Disk, t: Transaction)
    requires Open(d0, id) && AcceptedBy(w, d0, id, d, t)
    ensures d.files != d0.files
  {
    PlannedFacts(w, d0, id, t);
    PlannedShape(w, d0, id, t);
    LogResultDiffers(w, d0, id, t);
    ThreeWritten(d0.files, t.results, LOG);
    assert ObserveAll(d0.files, Paths(t.snapshots))[2] == t.snapshots[2];
  }

  /** Original files under an accepted record are not a settled disk. */
  lemma TornIsUnsettled(w: World, d0: Disk, id: string, p: Proposal)
    requires Open(d0, id) && p.status == "accepted"
    ensures !Settled(w, d0, id, d0.(record := Some(p)))
  {
    var d := d0.(record := Some(p));
    forall t | AcceptedBy(w, d0, id, d, t) ensures false {
      AcceptChangesLog(w, d0, id, d, t);
    }
  }

  /** Atomicity under every interruption holds exactly when the target is not torn,
      for every accept that goes through when nothing disturbs it. */
  lemma AtomicExactlyWhenNotTorn(w: World, d0: Disk, id: string, r: Request, now: Time)
    requires Open(d0, id) && r.proposalId == id && r.action.Accept?
    requires Decide(w, Machine(d0, ALL_SEVEN), r, now).1.Ok?
    ensures (forall script, recovery :: Atomic(w, d0, id, r, now, script, recovery)) <==> !TornTarget(w, d0)
  {
    hide ValidField;
    hide Decide, TornTarget, Settled;
    if TornTarget(w, d0) {
      var t := DecideReachesInterrupted(w, d0, id, r, now);
      TornIffTarget(w, d0, id, t);
      TornRecovery(w, d0, id, t);
      PlannedFacts(w, d0, id, t);
      TornIsUnsettled(w, d0, id, t.proposal);
      assert !Atomic(w, d0, id, r, now, FIRST_SIX, [Installed, Installed, Installed, Installed]);
    } else {
      forall script, recovery ensures Atomic(w, d0, id, r, now, script, recovery) {
        var run := [Event(r, now, script)];
        assert run[..0] == [];
        assert After(w, d0, run) == Decide(w, Machine(d0, script), r, now).0.disk;
        CrashAtomicity(w, d0, id, run, recovery);
      }
    }
  }
}
