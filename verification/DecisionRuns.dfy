/** Whole runs of decisions on one proposal: atomic, decided at most once, and
    answered the same way ever after. */
module DecisionRuns {
  import opened Wrappers
  import opened DecisionTypes
  import opened DecisionModel
  import opened DecisionRecovery
  import opened DecisionAtomicity

  // ---------------------------------------------------------------- when accept can tear

  /** Accepting would rewrite the index or the log with its own bytes and then
      regenerate it: the target is that file, the candidate's document is exactly
      what it holds, and the generated result differs. */
  predicate TornTarget(w: World, d: Disk)
  {
    d.record.Some? &&
    var p := d.record.value;
    var candidate := ReadCandidate(d, p.candidatePath);
    candidate.Ok? &&
    var doc := w.parse(p.targetPath, candidate.value);
    doc.Some? && w.marshal(doc.value).Some? && w.list(d.files).Some? &&
    var seen := Observe(d.files, p.targetPath);
    seen == Snapshot(p.targetPath, w.marshal(doc.value).value, seen.mode, true) &&
    (p.targetPath == LOG ||
     (p.targetPath == INDEX &&
      seen != Snapshot(INDEX, IndexAfter(w, seen, w.list(d.files).value, doc.value), PLAIN_MODE, true)))
  }

  /** What the plan of an accept writes: the document, the regenerated index and the longer log. */
  lemma PlannedResults(w: World, d: Disk, id: string, now: Time, audit: Audit)
    requires Open(d, id) && PlanAccept(w, d, id, now, audit).Ok?
    ensures var t := PlanAccept(w, d, id, now, audit).value; var p := d.record.value;
      var candidate := ReadCandidate(d, p.candidatePath);
      && candidate.Ok? && w.parse(p.targetPath, candidate.value).Some?
      && var doc := w.parse(p.targetPath, candidate.value).value;
      && w.marshal(doc).Some? && w.list(d.files).Some?
      && t.snapshots == [Observe(d.files, p.targetPath), Observe(d.files, INDEX), Observe(d.files, LOG)]
      && t.results == [
        Snapshot(p.targetPath, w.marshal(doc).value, t.snapshots[0].mode, true),
        Snapshot(INDEX, IndexAfter(w, t.snapshots[1], w.list(d.files).value, doc), PLAIN_MODE, true),
        Snapshot(LOG, LogAfter(w, t.snapshots[2], now, p.targetPath), PLAIN_MODE, true)]
  {
    hide CheckBase, IndexAfter, LogAfter, ReadCandidate;
    var p := d.record.value;
    assert ObserveAll(d.files, [p.targetPath, INDEX, LOG]) ==
      [Observe(d.files, p.targetPath), Observe(d.files, INDEX), Observe(d.files, LOG)];
  }

  /** The check a caller can make before accepting decides whether the planned transaction can tear. */
  lemma TornIffTarget(w: World, d0: Disk, id: string, t: Transaction)
    requires Open(d0, id) && Planned(w, d0, id, t)
    ensures Torn(t) <==> TornTarget(w, d0)
  {
    LogResultDiffers(w, d0, id, t);
    var c :| PlannedBy(w, d0, id, t, c);
    var planned := t.(stage := Prepared);
    PlannedResults(w, d0, id, c.now, c.audit);
    assert PlanAccept(w, d0, id, c.now, c.audit).value == planned;
    hide ValidTransaction, PlanAccept, PlannedBy, IndexAfter, LogAfter, Observe, ReadCandidate;
    assert INDEX != LOG;
  }

  // ---------------------------------------------------------------- one decision

  lemma AcceptStays(w: World, d0: Disk, id: string, s: seq<Fault>, c: Choice)
    requires Open(d0, id) && c.request.action.Accept?
    requires PlanAudit(w, d0, d0.record.value, c.version, c.request, c.now) == Ok(c.audit)
    ensures var r := AcceptProposal(w, Machine(d0, s), id, c.now, c.audit);
      Reachable(w, d0, id, r.0.disk) && (r.1.Ok? ==> Accepted(w, d0, id, r.0.disk))
  {
    hide WriteTarget, ValidTransaction;
    var m := Machine(d0, s);
    var plan := PlanAccept(w, d0, id, c.now, c.audit);
    if plan.Ok? {
      var t := plan.value;
      PlanFacts(w, d0, id, c.now, c.audit);
      var (m1, o1) := WriteJournal(w, m, t);
      if ValidTransaction(w, t, id) {
        assert PlannedBy(w, d0, id, t, c);
        if o1.Ok? {
          WriteTargetEffect(w, d0, id, m1, t);
          var r := WriteTarget(w, m1, t);
          assert r.1.Ok? ==> AcceptedBy(w, d0, id, r.0.disk, t.(stage := DecisionTypes.Canonical));
        }
      }
    }
  }

  lemma RejectStays(w: World, d0: Disk, id: string, s: seq<Fault>, c: Choice)
    requires Open(d0, id)
    requires c.request.action.Reject? && ValidRequest(c.request) && c.request.proposalId == id
    requires c.version == c.request.expectedVersion && Describe(w, d0, id) == Ok((d0.record.value, c.version))
    requires PlanAudit(w, d0, d0.record.value, c.version, c.request, c.now) == Ok(c.audit)
    ensures var r := RejectProposal(w, Machine(d0, s), id, c.now, c.audit);
      Settled(w, d0, id, r.0.disk) && (r.1.Ok? ==> Rejected(w, d0, id, r.0.disk))
  {
    var r := RejectProposal(w, Machine(d0, s), id, c.now, c.audit);
    if r.0.disk != d0 {
      assert RejectedBy(w, d0, id, r.0.disk, c);
    }
  }

  /** A disk at which a decision has ended carries an audit, unless it is the original one. */
  lemma EndedHasAudit(w: World, d0: Disk, id: string, d: Disk)
    requires Open(d0, id) && Ended(w, d0, id, d) && d != d0
    ensures HasAudit(d) && d.journal.None? && d.record.value.id == id
  {
    if Accepted(w, d0, id, d) {
      var t :| AcceptedBy(w, d0, id, d, t);
      PlannedFacts(w, d0, id, t);
    } else if Reverted(w, d0, id, d) {
      var t :| RevertedBy(w, d0, id, d, t);
      PlannedFacts(w, d0, id, t);
    }
  }

  /** Unless the target is the torn one, every decision that has ended is settled, and the files of an accepted one are
      at their results. */
  lemma EndedIsSettled(w: World, d0: Disk, id: string, d: Disk)
    requires Open(d0, id) && !TornTarget(w, d0) && Ended(w, d0, id, d)
    ensures Settled(w, d0, id, d)
    ensures forall t | AcceptedBy(w, d0, id, d, t) :: AtResults(d0.files, d.files, t.results)
  {
    hide TornTarget, Torn, AtResults;
    forall t | Planned(w, d0, id, t) ensures !Torn(t) {
      TornIffTarget(w, d0, id, t);
    }
  }

  /** Where a decision has ended, the files are those before it or those its three writes leave. */
  lemma EndedFiles(w: World, d0: Disk, id: string, d: Disk)
    requires Open(d0, id) && Ended(w, d0, id, d) && d.files != d0.files
    ensures exists t :: Planned(w, d0, id, t) && |t.results| == 3 && d.files == Written(d0.files, t.results, 3)
  {
    var t :| AcceptedBy(w, d0, id, d, t);
    PlannedShape(w, d0, id, t);
  }

  lemma EnactStays(w: World, d0: Disk, id: string, s: seq<Fault>, c: Choice)
    requires Open(d0, id)
    requires ValidRequest(c.request) && c.request.proposalId == id
    requires c.version == c.request.expectedVersion && Describe(w, d0, id) == Ok((d0.record.value, c.version))
    requires PlanAudit(w, d0, d0.record.value, c.version, c.request, c.now) == Ok(c.audit)
    ensures var out := Enact(w, Machine(d0, s), c.request, c.now, c.audit);
      Reachable(w, d0, id, out.0.disk) && (out.1.Ok? ==> Settled(w, d0, id, out.0.disk))
  {
    if c.request.action.Accept? {
      AcceptStays(w, d0, id, s, c);
    } else {
      RejectStays(w, d0, id, s, c);
    }
  }

  /** The reply to a decision just stored describes the stored record. */
  lemma EnactAnswers(w: World, m: Machine, r: Request, now: Time, audit: Audit)
    ensures var out := Enact(w, m, r, now, audit);
      out.1.Ok? ==> out.0.disk.record == Some(out.1.value.proposal) &&
                    out.1.value == Decided(out.1.value.proposal, audit.versionAfter, audit, false) &&
                    out.1.value.proposal.decision == Some(audit)
  {
    if r.action.Accept? {
      AcceptedRecord(w, m, r.proposalId, now, audit);
    }
  }

  lemma SettleStays(w: World, d0: Disk, id: string, m: Machine, r: Request, now: Time)
    requires Open(d0, id) && Ended(w, d0, id, m.disk)
    requires ValidRequest(r) && r.proposalId == id
    ensures var out := Settle(w, m, r, now);
      Reachable(w, d0, id, out.0.disk) && (HasAudit(m.disk) ==> out.0 == m) &&
      (out.1.Ok? ==> Ended(w, d0, id, out.0.disk))
  {
    var d := m.disk;
    if d != d0 {
      EndedHasAudit(w, d0, id, d);
    } else {
      var state := Describe(w, d, id);
      if state.Ok? && state.value.1 == r.expectedVersion {
        var audit := PlanAudit(w, d, d.record.value, state.value.1, r, now);
        if audit.Ok? {
          EnactStays(w, d0, id, m.script, Choice(r, now, state.value.1, audit.value));
        }
      }
    }
  }

  /** The reply to a successful decision describes the stored record and names the request. */
  ghost predicate Answers(d: Disk, r: Request, v: Decided)
  {
    var a := v.audit;
    d.record == Some(v.proposal) && v.proposal.decision == Some(a) && v.version == a.versionAfter &&
    r == Request(a.proposalId, a.action, a.expectedVersion, a.key, a.principal)
  }

  lemma SettleAnswers(w: World, m: Machine, r: Request, now: Time)
    ensures var out := Settle(w, m, r, now); out.1.Ok? ==> Answers(out.0.disk, r, out.1.value)
  {
    var state := Describe(w, m.disk, r.proposalId);
    if state.Ok? && state.value.0.decision.None? {
      var (p, version) := state.value;
      var audit := PlanAudit(w, m.disk, p, version, r, now);
      if audit.Ok? {
        EnactAnswers(w, m, r, now, audit.value);
      }
    }
  }

  lemma AcceptedRecord(w: World, m: Machine, id: string, now: Time, audit: Audit)
    ensures var r := AcceptProposal(w, m, id, now, audit);
      r.1.Ok? ==> r.0.disk.record == Some(r.1.value) && r.1.value.decision == Some(audit)
  {
    var plan := PlanAccept(w, m.disk, id, now, audit);
    if plan.Ok? {
      var t := plan.value;
      assert t.proposal.decision == Some(audit);
      var written := WriteJournal(w, m, t);
      if written.1.Ok? {
        WriteTargetRecords(w, written.0, t);
      }
    }
  }

  lemma WriteTargetRecords(w: World, m: Machine, t: Transaction)
    requires |t.results| == |t.snapshots| == 3
    ensures var r := WriteTarget(w, m, t); r.1.Ok? ==> r.0.disk.record == Some(t.proposal) && r.1.value == t.proposal
  {
    var (m1, o1) := WriteCanonical(m, t.results, t.snapshots, 0, 1);
    if o1.Ok? {
      var (m2, o2) := WriteCanonical(m1, t.results, t.snapshots, 1, 3);
      if o2.Ok? {
        CommitRecords(w, m2, t);
      } else {
        BailFails(m2, t, o2);
      }
    } else {
      BailFails(m1, t, o1);
    }
  }

  lemma BailFails(m: Machine, t: Transaction, o: Outcome<()>)
    requires !o.Ok?
    ensures !Bail(m, t, o).1.Ok?
  {}

  lemma CommitRecords(w: World, m: Machine, t: Transaction)
    ensures var r := Commit(w, m, t); r.1.Ok? ==> r.0.disk.record == Some(t.proposal) && r.1.value == t.proposal
  {
    var (m1, o1) := WriteJournal(w, m, t.(stage := DecisionTypes.Canonical));
    if o1.Ok? {
      var (m2, o2) := WriteRecord(m1, t.proposal);
      if !o2.Ok? {
        BailFails(m2, t, o2);
      }
    } else {
      BailFails(m1, t, o1);
    }
  }

  /** One decision, under every fate, from every phase: it ends in a phase, never
      disturbs a stored audit, and success means that a decision has ended with that audit. */
  lemma DecideStays(w: World, d0: Disk, id: string, m: Machine, r: Request, now: Time)
    requires Open(d0, id) && Reachable(w, d0, id, m.disk) && r.proposalId == id
    ensures var out := Decide(w, m, r, now);
      Reachable(w, d0, id, out.0.disk) && Keeps(m.disk, out.0.disk) &&
      (out.1.Ok? ==> Ended(w, d0, id, out.0.disk) && Answers(out.0.disk, r, out.1.value))
  {
    hide Recover, Settle, Reachable, Ended, Answers, ValidRequest, Torn;
    if ValidRequest(r) {
      RecoverSettles(w, d0, id, m);
      var rec := Recover(w, m, id);
      if rec.1.Ok? {
        SettleStays(w, d0, id, rec.0, r, now);
        SettleAnswers(w, rec.0, r, now);
      }
    }
  }

  /** A transaction in progress cannot tear unless the target is the torn one. */
  lemma JournalIsNotTorn(w: World, d0: Disk, id: string, d: Disk)
    requires Open(d0, id) && !TornTarget(w, d0) && Reachable(w, d0, id, d) && d.journal.Some?
    ensures !Torn(d.journal.value)
  {
    hide TornTarget, Torn, AtResults;
    TornIffTarget(w, d0, id, d.journal.value);
  }

  // ---------------------------------------------------------------- whole runs

  /** One request, the time it is made and the fate of its writes. A script that
      runs out kills the process, so every instant of every decision is the end of
      some event. */
  datatype Event = Event(request: Request, now: Time, script: seq<Fault>)

  /** The disk after a run of decisions, each on what the last one left. */
  ghost function After(w: World, d: Disk, events: seq<Event>): Disk
  {
    if events == [] then d
    else
      var e := events[|events| - 1];
      Decide(w, Machine(After(w, d, events[..|events| - 1]), e.script), e.request, e.now).0.disk
  }

  ghost predicate About(events: seq<Event>, id: string)
  {
    forall e | e in events :: e.request.proposalId == id
  }

  lemma {:induction false} RunStays(w: World, d0: Disk, id: string, events: seq<Event>)
    requires Open(d0, id) && About(events, id)
    ensures Reachable(w, d0, id, After(w, d0, events))
  {
    if events != [] {
      var e := events[|events| - 1];
      RunStays(w, d0, id, events[..|events| - 1]);
      DecideStays(w, d0, id, Machine(After(w, d0, events[..|events| - 1]), e.script), e.request, e.now);
    }
  }

  /** Crash atomicity: after any run, any recovery that clears the journal leaves all
      files original with the proposal still proposed, or all written with the proposal
      accepted and audited, or the files original and the proposal rejected; only where the
      target is the torn one, it can leave them original under an accepted record. An
      undisturbed recovery always clears the journal. */
  lemma CrashAtomicity(w: World, d0: Disk, id: string, events: seq<Event>, script: seq<Fault>)
    requires Open(d0, id) && About(events, id)
    ensures var d := Recover(w, Machine(After(w, d0, events), script), id).0.disk;
      d.journal.None? ==> EndedWhole(w, d0, id, d)
    ensures EndedWhole(w, d0, id, RecoveredDisk(w, After(w, d0, events), id))
  {
    RunStays(w, d0, id, events);
    var d := After(w, d0, events);
    RecoverSettles(w, d0, id, Machine(d, script));
    RecoverSettles(w, d0, id, Machine(d, [Installed, Installed, Installed, Installed]));
    RecoveryClears(w, d0, id, d);
    hide Recover, After, Ended, Reachable, TornTarget, Settled;
    var after := Recover(w, Machine(d, script), id).0.disk;
    if after.journal.None? {
      EndedIsWhole(w, d0, id, after);
    }
    EndedIsWhole(w, d0, id, RecoveredDisk(w, d, id));
  }

  /** A decision has ended; unless the target is the torn one it is settled, with the files of an accepted one at their
      results. */
  ghost predicate EndedWhole(w: World, d0: Disk, id: string, d: Disk)
    requires Open(d0, id)
  {
    Ended(w, d0, id, d) && (!TornTarget(w, d0) ==>
      Settled(w, d0, id, d) && forall t | AcceptedBy(w, d0, id, d, t) :: AtResults(d0.files, d.files, t.results))
  }

  lemma EndedIsWhole(w: World, d0: Disk, id: string, d: Disk)
    requires Open(d0, id) && Ended(w, d0, id, d)
    ensures EndedWhole(w, d0, id, d)
  {
    hide TornTarget, Ended, Settled;
    if !TornTarget(w, d0) {
      EndedIsSettled(w, d0, id, d);
    }
  }

  lemma RecoveryClears(w: World, d0: Disk, id: string, d: Disk)
    requires Open(d0, id) && Reachable(w, d0, id, d)
    ensures RecoveredDisk(w, d, id).journal.None?
  {
    if d.journal.Some? {
      var full := Machine(d, [Installed, Installed, Installed, Installed]);
      var t := d.journal.value;
      PlannedFacts(w, d0, id, t);
      JournalPaths(w, t, id);
      PhaseIsExaminable(w, d0, id, d);
      RecoverBranches(w, full, id);
      if Forward(d) {
        ForwardClears(w, d0, id, d);
      } else {
        RollBackCompletes(w, full, id, ReadCandidate(d, t.proposal.candidatePath) == Ok(t.candidate));
      }
    }
  }

  lemma PhaseIsExaminable(w: World, d0: Disk, id: string, d: Disk)
    requires Open(d0, id) && (InFlight(w, d0, id, d) || Recorded(w, d0, id, d))
    ensures Examinable(d)
  {
    var t := d.journal.value;
    PlannedFacts(w, d0, id, t);
    JournalPaths(w, t, id);
    forall p | p in Paths(t.snapshots) ensures Readable(d.files, p) {
      assert Readable(d0.files, p);
      assert |Observe(d.files, p).data| <= MAX_DOCUMENT_BYTES;
    }
  }

  lemma ForwardClears(w: World, d0: Disk, id: string, d: Disk)
    requires Open(d0, id) && (InFlight(w, d0, id, d) || Recorded(w, d0, id, d))
    ensures RollForward(Machine(d, [Installed, Installed, Installed, Installed]), d.journal.value,
      id).0.disk.journal.None?
  {
    hide ValidField;
    var t := d.journal.value;
    PlannedFacts(w, d0, id, t);
    assert SameProposal(t.proposal, t.proposal);
  }

  // ---------------------------------------------------------------- exactly once

  /** Once an audit is stored, the record and the candidates never change again; without a journal nothing does, and
      unless the target is the torn one nothing but the journal does. */
  lemma {:induction false} AuditStays(w: World, d0: Disk, id: string, events: seq<Event>, k: nat)
    requires Open(d0, id) && About(events, id) && k <= |events|
    requires HasAudit(After(w, d0, events[..k]))
    ensures var a, b := After(w, d0, events[..k]), After(w, d0, events);
      && b == a.(journal := b.journal, files := b.files)
      && (a.journal.None? ==> b == a)
      && (!TornTarget(w, d0) ==> b.files == a.files)
    decreases |events| - k
  {
    hide TornTarget, Torn, Reachable;
    if k == |events| {
      assert events[..k] == events;
    } else {
      var e, d := events[k], After(w, d0, events[..k]);
      assert events[..k + 1][..k] == events[..k];
      RunStays(w, d0, id, events[..k]);
      DecideStays(w, d0, id, Machine(d, e.script), e.request, e.now);
      if !TornTarget(w, d0) && d.journal.Some? {
        JournalIsNotTorn(w, d0, id, d);
      }
      AuditStays(w, d0, id, events, k + 1);
    }
  }

  /** Of any disk, whatever it holds: a record that carries an audit is never replaced. */
  lemma RecordStays(w: World, m: Machine, r: Request, now: Time)
    requires HasAudit(m.disk)
    ensures Decide(w, m, r, now).0.disk.record == m.disk.record
  {
    hide ValidRequest, Recover, Settle;
    if ValidRequest(r) {
      RecoverKeepsRecord(w, m, r.proposalId);
      SettleKeepsRecord(w, Recover(w, m, r.proposalId).0, r, now);
    }
  }

  lemma SettleKeepsRecord(w: World, m: Machine, r: Request, now: Time)
    requires HasAudit(m.disk)
    ensures Settle(w, m, r, now).0 == m
  {
    hide Enact, Replay, PlanAudit, Version;
  }

  /** So is it over any run, from any disk, about any proposals. */
  lemma {:induction false} RecordStaysForever(w: World, d: Disk, events: seq<Event>, k: nat)
    requires k <= |events| && HasAudit(After(w, d, events[..k]))
    ensures After(w, d, events).record == After(w, d, events[..k]).record
    decreases |events|
  {
    hide Decide;
    if k == |events| {
      assert events[..k] == events;
    } else {
      var front, e := events[..|events| - 1], events[|events| - 1];
      assert front[..k] == events[..k];
      RecordStaysForever(w, d, front, k);
      RecordStays(w, Machine(After(w, d, front), e.script), e.request, e.now);
    }
  }

  lemma RecoverKeepsRecord(w: World, m: Machine, id: string)
    requires HasAudit(m.disk)
    ensures Recover(w, m, id).0.disk.record == m.disk.record
  {
    hide ValidTransaction, SameProposal;
    if m.disk.journal.Some? {
      var t := m.disk.journal.value;
      RestoreKeepsRecord(m, t.snapshots, t.results);
    }
  }

  lemma RestoreKeepsRecord(m: Machine, original: seq<Snapshot>, results: seq<Snapshot>)
    ensures Restore(m, original, results).0.disk == m.disk.(files := Restore(m, original, results).0.disk.files)
  {
    if |original| == |results| && AllReadable(m.disk.files, Paths(original)) {
      RestoreFromKeepsRecord(m, ObserveAll(m.disk.files, Paths(original)), original, results, 0, false);
    }
  }

  lemma {:induction false} RestoreFromKeepsRecord(m: Machine, current: seq<Snapshot>, original: seq<Snapshot>,
      results: seq<Snapshot>, i: nat, external: bool)
    requires |current| == |original| == |results| && i <= |current|
    ensures var d := RestoreFrom(m, current, original, results, i, external).0.disk; d == m.disk.(files := d.files)
    decreases |current| - i
  {
    if i < |current| {
      if current[i] == original[i] || current[i] != results[i] {
        RestoreFromKeepsRecord(m, current, original, results, i + 1, external || current[i] != original[i]);
      } else {
        var (m1, o) := PutSnapshot(m, original[i]);
        RestoreFromKeepsRecord(m1, current, original, results, i + 1, external);
      }
    }
  }

  /** At most one audit is ever stored, whatever the target: after a point that carries an audit every point
      carries the same record, and unless the target is the torn one the same files. */
  lemma DecidedOnce(w: World, d0: Disk, id: string, events: seq<Event>, i: nat, j: nat)
    requires Open(d0, id) && About(events, id) && i <= j <= |events|
    ensures var a, b := After(w, d0, events[..i]), After(w, d0, events[..j]);
      HasAudit(a) ==> b.record == a.record && (a.journal.None? || !TornTarget(w, d0) ==> b.files == a.files)
  {
    assert events[..j][..i] == events[..i];
    if HasAudit(After(w, d0, events[..i])) {
      AuditStays(w, d0, id, events[..j], i);
    }
  }

  /** The log holds at most one new line at any point of a run; while a document is being written over the log itself,
      that is so whenever no decision is in progress, and always where the document is the log as it was. */
  lemma LogGrowsAtMostOnce(w: World, d0: Disk, id: string, events: seq<Event>)
    requires Open(d0, id) && About(events, id)
    ensures var d := After(w, d0, events); var before, seen := Observe(d0.files, LOG), Observe(d.files, LOG);
      seen == before || (d0.record.value.targetPath == LOG && d.journal.Some? && !TornTarget(w, d0)) ||
      exists now :: seen.data == LogAfter(w, before, now, d0.record.value.targetPath)
  {
    RunStays(w, d0, id, events);
    var d := After(w, d0, events);
    hide After, TornTarget, Torn, AtResults, Observe;
    if InFlight(w, d0, id, d) || Recorded(w, d0, id, d) {
      TornIffTarget(w, d0, id, d.journal.value);
      LogSeen(w, d0, id, d, d.journal.value);
    } else if Accepted(w, d0, id, d) {
      var t :| AcceptedBy(w, d0, id, d, t);
      LogWritten(w, d0, id, d, t);
    }
  }

  lemma LogWritten(w: World, d0: Disk, id: string, d: Disk, t: Transaction)
    requires Open(d0, id) && AcceptedBy(w, d0, id, d, t)
    ensures exists now ::
      Observe(d.files, LOG).data == LogAfter(w, Observe(d0.files, LOG), now, d0.record.value.targetPath)
  {
    PlannedShape(w, d0, id, t);
    PlannedFacts(w, d0, id, t);
    LogResultDiffers(w, d0, id, t);
    hide Planned, Open, Matched, Observe, Torn;
    ThreeWritten(d0.files, t.results, LOG);
    assert ObserveAll(d0.files, Paths(t.snapshots))[2] == Observe(d0.files, LOG);
  }

  lemma LogSeen(w: World, d0: Disk, id: string, d: Disk, t: Transaction)
    requires Open(d0, id) && Planned(w, d0, id, t) && Between(d0.files, d.files, t.results)
    ensures var before, seen := Observe(d0.files, LOG), Observe(d.files, LOG);
      seen == before || (d0.record.value.targetPath == LOG && !Torn(t)) ||
      exists now :: seen.data == LogAfter(w, before, now, d0.record.value.targetPath)
  {
    PlannedFacts(w, d0, id, t);
    LogResultDiffers(w, d0, id, t);
    assert Paths(t.results)[0] == t.results[0].path && Paths(t.results)[1] == t.results[1].path;
    assert t.snapshots[2] == Observe(d0.files, Paths(t.snapshots)[2]);
    assert t.snapshots[0] == Observe(d0.files, Paths(t.snapshots)[0]);
    assert INDEX != LOG;
  }

  // ---------------------------------------------------------------- replies after a decision

  /** The three paths resolve to themselves. */
  ghost predicate Lawful(w: World, d0: Disk)
    requires d0.record.Some?
  {
    w.resolve(d0.record.value.targetPath) == Some(d0.record.value.targetPath) &&
    w.resolve(INDEX) == Some(INDEX) && w.resolve(LOG) == Some(LOG)
  }

  /** A decided proposal whose stored audit checks out. */
  ghost predicate Final(w: World, d: Disk, id: string)
  {
    d.journal.None? && HasAudit(d) &&
    var described := Describe(w, d, id);
    described.Ok? && ValidStoredAudit(w, d.record.value.decision.value, d.record.value, described.value.1)
  }

  lemma VersionDependsOnCandidate(w: World, d: Disk, e: Disk, p: Proposal)
    requires d.candidates == e.candidates
    ensures Version(w, d, p) == Version(w, e, p)
  {}

  lemma AcceptedTargetIsReadable(w: World, d0: Disk, id: string, d: Disk, t: Transaction)
    requires Open(d0, id) && (AcceptedBy(w, d0, id, d, t) || RevertedBy(w, d0, id, d, t))
    ensures Readable(d.files, t.proposal.targetPath)
  {
    PlannedFacts(w, d0, id, t);
    PlannedShape(w, d0, id, t);
    JournalPaths(w, t, id);
    var p := t.proposal.targetPath;
    assert Readable(d0.files, Paths(t.snapshots)[0]);
    WrittenIsBetween(d0.files, t.results, 3);
    assert |Observe(d.files, p).data| <= MAX_DOCUMENT_BYTES;
  }

  /** An accepted disk passes the check of its stored audit, undone or not. */
  lemma AcceptedIsFinal(w: World, d0: Disk, id: string, d: Disk)
    requires Open(d0, id) && (Accepted(w, d0, id, d) || Reverted(w, d0, id, d))
    ensures Final(w, d, id)
  {
    var t :| AcceptedBy(w, d0, id, d, t) || RevertedBy(w, d0, id, d, t);
    AcceptedTargetIsReadable(w, d0, id, d, t);
    hide AtResults, Torn, Written, Final, Readable;
    PlannedIsFinal(w, d0, id, d, t);
  }

  lemma PlannedIsFinal(w: World, d0: Disk, id: string, d: Disk, t: Transaction)
    requires Open(d0, id) && Planned(w, d0, id, t) && d.journal.None? && d.record == Some(t.proposal)
    requires d.candidates == d0.candidates && Readable(d.files, t.proposal.targetPath)
    ensures Final(w, d, id)
  {
    PlannedFacts(w, d0, id, t);
    PlannedIsValid(w, d0, id, t);
    VersionDependsOnCandidate(w, d, d0, t.proposal);
    hide Planned, Matched, Version, ValidStoredAudit, Open;
  }

  /** A rejection is final exactly when the time it stored can be parsed back. */
  lemma RejectedIsFinal(w: World, d0: Disk, id: string, d: Disk)
    requires Open(d0, id) && Lawful(w, d0) && Rejected(w, d0, id, d)
    ensures d.record.Some? && d.record.value.decision.Some?
    ensures Final(w, d, id) <==> w.parsesNanos(d.record.value.decision.value.decidedAt)
  {
    var c :| RejectedBy(w, d0, id, d, c);
    var p := d.record.value;
    VersionDependsOnCandidate(w, d, d0, p);
    assert Version(w, d0, p) == Version(w, d0, p.(decision := None));
    assert Describe(w, d0, id).Ok?;
  }

  /** Once decided, every later request is answered from the stored audit without
      any write: the identical request gets that audit, any other is refused. */
  lemma FinalForever(w: World, d: Disk, id: string, script: seq<Fault>, r: Request, now: Time)
    requires Final(w, d, id) && r.proposalId == id
    ensures var out := Decide(w, Machine(d, script), r, now); var a := d.record.value.decision.value;
      out.0.disk == d && out.0.script == script &&
      out.1 ==
        if !ValidRequest(r) then Err(InvalidRequest)
        else if r == Request(a.proposalId, a.action, a.expectedVersion, a.key, a.principal)
        then Ok(Decided(d.record.value, a.versionAfter, a, true))
        else if r.key != a.key then Err(VersionConflict)
        else Err(IdempotencyConflict)
  {
    RecoverNothing(w, Machine(d, script), id);
  }

  /** A successful decision is final: whatever is asked afterwards, the files and
      the record stay, and the same request returns the same audit; the time of that
      audit must be one that can be parsed back. */
  lemma SuccessIsFinal(w: World, d0: Disk, id: string, m: Machine, r: Request, now: Time)
    requires Open(d0, id) && Lawful(w, d0) && Reachable(w, d0, id, m.disk) && r.proposalId == id
    requires Decide(w, m, r, now).1.Ok? && w.parsesNanos(Decide(w, m, r, now).1.value.audit.decidedAt)
    ensures var out := Decide(w, m, r, now);
      Final(w, out.0.disk, id) &&
      forall script, later :: Decide(w, Machine(out.0.disk, script), r, later) ==
        (Machine(out.0.disk, script), Ok(out.1.value.(idempotent := true)))
  {
    DecideStays(w, d0, id, m, r, now);
    var out := Decide(w, m, r, now);
    var d := out.0.disk;
    assert d != d0;
    if Accepted(w, d0, id, d) || Reverted(w, d0, id, d) {
      AcceptedIsFinal(w, d0, id, d);
    } else {
      RejectedIsFinal(w, d0, id, d);
    }
    forall script, later ensures Decide(w, Machine(d, script), r, later) ==
        (Machine(d, script), Ok(out.1.value.(idempotent := true)))
    {
      FinalForever(w, d, id, script, r, later);
    }
  }
}
