/** The review inbox as it runs: an object whose methods change the disk one
    atomic step at a time. Each method computes the function of the same name in
    `DecisionModel`, so every law of the decision protocol holds of these methods. */
module ReviewInbox {
  import opened Wrappers
  import opened DecisionTypes
  import opened DecisionModel
  import opened DecisionAtomicity
  import opened DecisionRuns

  class Inbox {
    const world: World
    var files: map<string, FileData>
    var candidates: map<string, Bytes>
    var record: Option<Proposal>
    var journal: Option<Transaction>
    /** The fate of the atomic steps still to come. */
    var script: seq<Fault>

    constructor (w: World, d: Disk, s: seq<Fault>)
      ensures world == w && State() == Machine(d, s)
    {
      world := w;
      files, candidates, record, journal := d.files, d.candidates, d.record, d.journal;
      script := s;
    }

    function State(): Machine
      reads this
    {
      Machine(Disk(files, candidates, record, journal), script)
    }

    /** The fate of the next atomic step; a killed process takes no further step. */
    method Attempt() returns (o: Outcome<()>)
      modifies `script
      ensures var r := Step(old(State()), old(State()).disk);
        State() == r.0 && o == r.1
    {
      if |script| == 0 || script[0].Killing? {
        script := [];
        o := Killed;
      } else {
        o := if script[0].Refused? then Err(IOFailure) else Ok(());
        script := script[1..];
      }
    }

    /** Puts a snapshot back: an atomic write, or a removal when there was no file. */
    method PutBack(s: Snapshot) returns (o: Outcome<()>)
      modifies `script, `files
      ensures var r := PutSnapshot(old(State()), s);
        State() == r.0 && o == r.1
    {
      o := Attempt();
      if o.Ok? {
        if s.present {
          files := files[s.path := FileData(s.data, s.mode)];
        } else {
          files := files - {s.path};
        }
      }
    }

    method WriteProposal(p: Proposal) returns (o: Outcome<()>)
      modifies `script, `record
      ensures var r := WriteRecord(old(State()), p);
        State() == r.0 && o == r.1
    {
      o := Attempt();
      if o.Ok? {
        record := Some(p);
      }
    }

    method WriteDecisionTransaction(t: Transaction) returns (o: Outcome<()>)
      modifies `script, `journal
      ensures var r := WriteJournal(world, old(State()), t);
        State() == r.0 && o == r.1
    {
      if !ValidTransaction(world, t, t.proposal.id) {
        return Err(Invalid("transaction"));
      }
      o := Attempt();
      if o.Ok? {
        journal := Some(t);
      }
    }

    method RemoveDecisionTransaction() returns (o: Outcome<()>)
      modifies `script, `journal
      ensures var r := RemoveJournal(old(State()));
        State() == r.0 && o == r.1
    {
      o := Attempt();
      if o.Ok? {
        journal := None;
      }
    }

    /** Reads the files one by one and stops at the first that is over the bound. */
    method SnapshotBundleFiles(paths: seq<string>) returns (o: Outcome<seq<Snapshot>>)
      ensures o == SnapshotFiles(files, paths)
    {
      var taken: seq<Snapshot> := [];
      for i := 0 to |paths|
        invariant |taken| == i
        invariant forall k | 0 <= k < i :: Readable(files, paths[k]) && taken[k] == Observe(files, paths[k])
      {
        var path := paths[i];
        if path in files {
          if |files[path].data| > MAX_DOCUMENT_BYTES {
            assert paths[i] in paths;
            return Err(TooLarge);
          }
          taken := taken + [Snapshot(path, files[path].data, files[path].mode, true)];
        } else {
          taken := taken + [Snapshot(path, [], PLAIN_MODE, false)];
        }
      }
      assert taken == ObserveAll(files, paths);
      return Ok(taken);
    }

    /** The common paths of originals and results, when they agree. */
    method CommonPaths(original: seq<Snapshot>, results: seq<Snapshot>) returns (paths: Outcome<seq<string>>)
      requires |original| == |results|
      ensures paths == if Paths(original) == Paths(results) then Ok(Paths(original)) else Err(Invalid("snapshot paths"))
    {
      var taken: seq<string> := [];
      for i := 0 to |original|
        invariant |taken| == i
        invariant forall k | 0 <= k < i :: original[k].path == results[k].path == taken[k]
      {
        if original[i].path != results[i].path {
          assert Paths(original)[i] != Paths(results)[i];
          return Err(Invalid("snapshot paths"));
        }
        taken := taken + [original[i].path];
      }
      assert taken == Paths(original) == Paths(results);
      return Ok(taken);
    }

    /** Puts back every file that still holds this transaction's result. */
    method PutBackResults(current: seq<Snapshot>, original: seq<Snapshot>,
        results: seq<Snapshot>) returns (o: Outcome<bool>)
      requires |current| == |original| == |results|
      modifies `script, `files
      ensures var r := RestoreFrom(old(State()), current, original, results, 0, false);
        State() == r.0 && o == r.1
    {
      var external := false;
      ghost var goal := RestoreFrom(State(), current, original, results, 0, false);
      for i := 0 to |original|
        invariant candidates == old(candidates) && record == old(record) && journal == old(journal)
        invariant RestoreFrom(State(), current, original, results, i, external) == goal
      {
        if current[i] == original[i] {
        } else if current[i] == results[i] {
          var put := PutBack(original[i]);
          if !put.Ok? {
            return put.PropagateFailure();
          }
        } else {
          external := true;
        }
      }
      return Ok(external);
    }

    /** Looks at the files once more after restoring them. */
    method LookAgainAt(original: seq<Snapshot>, results: seq<Snapshot>, met: bool) returns (o: Outcome<bool>)
      requires |original| == |results|
      ensures o == LookAgain(files, original, results, met)
    {
      var after := SnapshotBundleFiles(Paths(original));
      if !after.Ok? {
        return after.PropagateFailure();
      }
      var external := met;
      for i := 0 to |original|
        invariant forall k | 0 <= k < i :: original[k] == results[k] || after.value[k] != results[k]
        invariant external == (met || exists k :: 0 <= k < i && after.value[k] != original[k])
      {
        if original[i] != results[i] && after.value[i] == results[i] {
          return Err(Invalid("result remains"));
        }
        if after.value[i] != original[i] {
          external := true;
        }
      }
      return Ok(external);
    }

    /** The rollback: restore what is ours, then report what is not. */
    method RestoreSnapshots(original: seq<Snapshot>, results: seq<Snapshot>) returns (o: Outcome<bool>)
      modifies `script, `files
      ensures var r := Restore(old(State()), original, results);
        State() == r.0 && o == r.1
    {
      if |original| != |results| || |original| == 0 {
        return Err(Invalid("snapshots"));
      }
      var paths := CommonPaths(original, results);
      if !paths.Ok? {
        return paths.PropagateFailure();
      }
      var current := SnapshotBundleFiles(paths.value);
      if !current.Ok? {
        return current.PropagateFailure();
      }
      o := PutBackResults(current.value, original, results);
      if o.Ok? {
        o := LookAgainAt(original, results, o.value);
      }
    }

    /** Recovery at the start of a decision: forward, back, or nothing to do. */
    method RecoverDecisionTransaction(id: string) returns (o: Outcome<()>)
      modifies `script, `files, `record, `journal
      ensures var r := Recover(world, old(State()), id);
        State() == r.0 && o == r.1
    {
      if journal.None? {
        return Ok(());
      }
      var t := journal.value;
      if !ValidTransaction(world, t, id) {
        return Err(Invalid("transaction"));
      }
      var current := SnapshotBundleFiles([t.proposal.targetPath, INDEX, LOG]);
      if !current.Ok? {
        return current.PropagateFailure();
      }
      var candidate := ReadCandidate(State().disk, t.proposal.candidatePath);
      if candidate.Err? && candidate.error != NotExist {
        return candidate.PropagateFailure();
      }
      var matches := candidate == Ok(t.candidate);
      if matches && current.value == t.results {
        var stored := Load(State().disk, id);
        if !stored.Ok? {
          return stored.PropagateFailure();
        }
        if stored.value.decision.Some? {
          if !SameProposal(stored.value, t.proposal) {
            return Err(Invalid("record conflict"));
          }
          o := RemoveDecisionTransaction();
          return;
        }
        if stored.value.status != "proposed" || !SameProposalBody(stored.value, t.proposal) {
          return Err(Invalid("record conflict"));
        }
        o := WriteProposal(t.proposal);
        if o.Ok? {
          o := RemoveDecisionTransaction();
        }
        return;
      }
      var external := RestoreSnapshots(t.snapshots, t.results);
      if !external.Ok? {
        return external.PropagateFailure();
      }
      o := RemoveDecisionTransaction();
      if o.Ok? && (!matches || external.value) {
        o := Err(VersionConflict);
      }
    }

    /** Writes results `lo` to `hi`, each only over the snapshot it expects. */
    method WriteCanonicalSnapshots(results: seq<Snapshot>, expected: seq<Snapshot>, lo: nat,
        hi: nat) returns (o: Outcome<()>)
      requires lo <= hi <= |results| && hi <= |expected|
      modifies `script, `files
      ensures var r := WriteCanonical(old(State()), results, expected, lo, hi);
        State() == r.0 && o == r.1
    {
      ghost var goal := WriteCanonical(State(), results, expected, lo, hi);
      for i := lo to hi
        invariant candidates == old(candidates) && record == old(record) && journal == old(journal)
        invariant WriteCanonical(State(), results, expected, i, hi) == goal
      {
        if !results[i].present || results[i].path != expected[i].path {
          return Err(Invalid("result"));
        }
        var current := SnapshotBundleFiles([results[i].path]);
        if !current.Ok? {
          return current.PropagateFailure();
        }
        if current.value[0] != expected[i] {
          return Err(VersionConflict);
        }
        var put := PutBack(results[i]);
        if !put.Ok? {
          return put;
        }
      }
      return Ok(());
    }

    /** The rollback closure of accept. */
    method Undo(t: Transaction, o: Outcome<()>) returns (p: Outcome<Proposal>)
      requires !o.Ok?
      modifies `script, `files, `journal
      ensures var r := Bail(old(State()), t, o);
        State() == r.0 && p == r.1
    {
      if o.Killed? {
        return Killed;
      }
      var external := RestoreSnapshots(t.snapshots, t.results);
      if external.Killed? {
        return Killed;
      }
      if external.Err? {
        return Err(Join(o.error, external.error));
      }
      var removed := RemoveDecisionTransaction();
      if removed.Killed? {
        return Killed;
      }
      if removed.Err? {
        return Err(Join(o.error, removed.error));
      }
      return Err(if external.value then Join(o.error, VersionConflict) else o.error);
    }

    method Accept(id: string, now: Time, audit: Audit) returns (p: Outcome<Proposal>)
      modifies `script, `files, `record, `journal
      ensures var r := AcceptProposal(world, old(State()), id, now, audit);
        State() == r.0 && p == r.1
    {
      var plan := PlanAccept(world, State().disk, id, now, audit);
      if !plan.Ok? {
        return plan.PropagateFailure();
      }
      var t := plan.value;
      var o := WriteDecisionTransaction(t);
      if !o.Ok? {
        return o.PropagateFailure();
      }
      o := WriteCanonicalSnapshots(t.results, t.snapshots, 0, 1);
      if !o.Ok? {
        p := Undo(t, o);
        return;
      }
      o := WriteCanonicalSnapshots(t.results, t.snapshots, 1, 3);
      if !o.Ok? {
        p := Undo(t, o);
        return;
      }
      o := WriteDecisionTransaction(t.(stage := DecisionTypes.Canonical));
      if !o.Ok? {
        p := Undo(t, o);
        return;
      }
      o := WriteProposal(t.proposal);
      if !o.Ok? {
        p := Undo(t, o);
        return;
      }
      o := RemoveDecisionTransaction();
      if !o.Ok? {
        return o.PropagateFailure();
      }
      return Ok(t.proposal);
    }

    method Reject(id: string, now: Time, audit: Audit) returns (p: Outcome<Proposal>)
      modifies `script, `record
      ensures var r := RejectProposal(world, old(State()), id, now, audit);
        State() == r.0 && p == r.1
    {
      var stored := Load(State().disk, id);
      if !stored.Ok? {
        return stored;
      }
      if stored.value.status != "proposed" {
        return Err(Invalid("status"));
      }
      var final := stored.value.(status := "rejected", reviewedAt := world.seconds(now), decision := Some(audit));
      var o := WriteProposal(final);
      if !o.Ok? {
        return o.PropagateFailure();
      }
      return Ok(final);
    }

    /** Applies or rejects a proposal. Whatever happens to its writes, a proposal that
        was open on `d0` stays in one of the phases, a stored audit is never
        disturbed, and success means that a decision has ended that answers the request. */
    method DecideAtomically(r: Request, now: Time, ghost d0: Disk) returns (v: Outcome<Decided>)
      requires Open(d0, r.proposalId) && Reachable(world, d0, r.proposalId, State().disk)
      modifies `script, `files, `record, `journal
      ensures var out := DecisionModel.Decide(world, old(State()), r, now);
        State() == out.0 && v == out.1
      ensures Reachable(world, d0, r.proposalId, State().disk) && Keeps(old(State()).disk, State().disk)
      ensures HasAudit(old(State()).disk) ==> record == old(record) && (!TornTarget(world, d0) ==> files == old(files))
      ensures v.Ok? ==> Ended(world, d0, r.proposalId, State().disk) && Answers(State().disk, r, v.value)
    {
      hide TornTarget, Torn, Reachable, Ended, DecisionModel.Decide;
      if !TornTarget(world, d0) && State().disk.journal.Some? {
        JournalIsNotTorn(world, d0, r.proposalId, State().disk);
      }
      DecideStays(world, d0, r.proposalId, State(), r, now);
      v := Decide(r, now);
    }

    method Decide(r: Request, now: Time) returns (v: Outcome<Decided>)
      modifies `script, `files, `record, `journal
      ensures var out := DecisionModel.Decide(world, old(State()), r, now);
        State() == out.0 && v == out.1
    {
      if !ValidRequest(r) {
        return Err(InvalidRequest);
      }
      var recovered := RecoverDecisionTransaction(r.proposalId);
      if !recovered.Ok? {
        return recovered.PropagateFailure();
      }
      v := Settle(r, now);
    }

    method Settle(r: Request, now: Time) returns (v: Outcome<Decided>)
      modifies `script, `files, `record, `journal
      ensures var out := DecisionModel.Settle(world, old(State()), r, now);
        State() == out.0 && v == out.1
    {
      var state := Describe(world, State().disk, r.proposalId);
      if !state.Ok? {
        return state.PropagateFailure();
      }
      var (p, version) := state.value;
      if p.decision.Some? {
        return Replay(world, p, version, p.decision.value, r);
      }
      if version != r.expectedVersion || p.status != "proposed" {
        return Err(VersionConflict);
      }
      var audit := PlanAudit(world, State().disk, p, version, r, now);
      if !audit.Ok? {
        return audit.PropagateFailure();
      }
      var done;
      if r.action.Accept? {
        done := Accept(r.proposalId, now, audit.value);
      } else {
        done := Reject(r.proposalId, now, audit.value);
      }
      if !done.Ok? {
        return done.PropagateFailure();
      }
      return Confirm(world, State().disk, done.value, audit.value.versionAfter);
    }
  }
}
