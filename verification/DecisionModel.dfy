/** What the review inbox does, as functions from a machine (disk and fault
    script) to a machine and an outcome. `ReviewInbox` runs the same steps in
    place and is proved to compute exactly these functions. */
module DecisionModel {
  import opened Wrappers
  import opened DecisionTypes
  import Strings
  import Utf8

  // ---------------------------------------------------------------- atomic steps

  /** One atomic write or remove that would turn the disk into `next`. */
  function Step(m: Machine, next: Disk): (r: (Machine, Outcome<()>))
  {
    if m.script == [] || m.script[0].Killing? then (Machine(m.disk, []), Killed)
    else if m.script[0].Refused? then (Machine(m.disk, m.script[1..]), Err(IOFailure))
    else (Machine(next, m.script[1..]), Ok(()))
  }

  /** The files after a snapshot is put back: written when it existed, removed otherwise. */
  function Put(files: map<string, FileData>, s: Snapshot): map<string, FileData>
  {
    if s.present then files[s.path := FileData(s.data, s.mode)] else files - {s.path}
  }

  function PutSnapshot(m: Machine, s: Snapshot): (Machine, Outcome<()>)
  {
    Step(m, m.disk.(files := Put(m.disk.files, s)))
  }

  function WriteRecord(m: Machine, p: Proposal): (Machine, Outcome<()>)
  {
    Step(m, m.disk.(record := Some(p)))
  }

  function RemoveJournal(m: Machine): (Machine, Outcome<()>)
  {
    Step(m, m.disk.(journal := None))
  }

  function WriteJournal(w: World, m: Machine, t: Transaction): (Machine, Outcome<()>)
  {
    if !ValidTransaction(w, t, t.proposal.id) then (m, Err(Invalid("transaction")))
    else Step(m, m.disk.(journal := Some(t)))
  }

  // ---------------------------------------------------------------- reading

  /** The snapshot of one path: an absent file has no data and the plain mode. */
  function Observe(files: map<string, FileData>, path: string): Snapshot
  {
    if path in files then Snapshot(path, files[path].data, files[path].mode, true)
    else Snapshot(path, [], PLAIN_MODE, false)
  }

  function ObserveAll(files: map<string, FileData>, paths: seq<string>): (r: seq<Snapshot>)
    ensures |r| == |paths|
    ensures forall i :: 0 <= i < |paths| ==> r[i] == Observe(files, paths[i])
  {
    seq(|paths|, i requires 0 <= i < |paths| => Observe(files, paths[i]))
  }

  predicate Readable(files: map<string, FileData>, path: string)
  {
    path in files ==> |files[path].data| <= MAX_DOCUMENT_BYTES
  }

  /** Snapshotting fails as soon as one file is over the size bound. */
  function SnapshotFiles(files: map<string, FileData>, paths: seq<string>): Outcome<seq<Snapshot>>
  {
    if forall path | path in paths :: Readable(files, path)
    then Ok(ObserveAll(files, paths))
    else Err(TooLarge)
  }

  function ReadCandidate(d: Disk, path: string): Outcome<Bytes>
  {
    if path !in d.candidates then Err(NotExist)
    else if |d.candidates[path]| > MAX_DOCUMENT_BYTES then Err(TooLarge)
    else Ok(d.candidates[path])
  }

  function Load(d: Disk, id: string): Outcome<Proposal>
  {
    if d.record.None? then Err(NotExist)
    else if d.record.value.id != id then Err(Invalid("proposal id mismatch"))
    else Ok(d.record.value)
  }

  // ---------------------------------------------------------------- validation

  /** A field of a request, as its bytes: short, UTF-8 without control characters, and no path separator. */
  predicate ValidField(value: string)
  {
    0 < |value| <= 128 && Utf8.PlainText(value) && forall c | c in value :: c != '/' && c != '\\'
  }

  predicate IsHex(c: char)
  {
    '0' <= c <= '9' || 'a' <= c <= 'f' || 'A' <= c <= 'F'
  }

  predicate ValidRequest(r: Request)
  {
    !r.action.Unknown? &&
    ValidField(r.proposalId) && ValidField(r.expectedVersion) && ValidField(r.key) && ValidField(r.principal) &&
    |r.expectedVersion| == 64 && forall c | c in r.expectedVersion :: IsHex(c)
  }

  predicate ValidStoredAudit(w: World, a: Audit, p: Proposal, version: string)
  {
    a.schema == AUDIT_SCHEMA &&
    ValidRequest(Request(a.proposalId, a.action, a.expectedVersion, a.key, a.principal)) &&
    a.proposalId == p.id && a.versionBefore != "" && a.versionAfter == version &&
    a.rollback == [p.targetPath, INDEX, LOG] &&
    (a.action.Accept? ==> p.status == "accepted") &&
    (a.action.Reject? ==> p.status == "rejected") &&
    w.parsesNanos(a.decidedAt)
  }

  predicate SameAudit(a: Audit, b: Audit)
  {
    a.(rollback := []) == b.(rollback := []) && Strings.Join(a.rollback, "\0") == Strings.Join(b.rollback, "\0")
  }

  /** Equal in everything a decision does not write. */
  predicate SameProposalBody(a: Proposal, b: Proposal)
  {
    a.(status := "", reviewedAt := "", decision := None) == b.(status := "", reviewedAt := "", decision := None)
  }

  predicate SameProposal(a: Proposal, b: Proposal)
  {
    a.(decision := None) == b.(decision := None) &&
    a.decision.Some? && b.decision.Some? && SameAudit(a.decision.value, b.decision.value)
  }

  predicate ValidMode(mode: nat) { mode <= 511 }

  predicate ValidTransaction(w: World, t: Transaction, id: string)
  {
    t.schema == TRANSACTION_SCHEMA && t.proposal.id == id && t.proposal.status == "accepted" &&
    t.proposal.decision.Some? && SameAudit(t.proposal.decision.value, t.audit) &&
    |t.candidate| <= MAX_DOCUMENT_BYTES && |t.snapshots| == 3 && |t.results| == 3 &&
    ValidStoredAudit(w, t.audit, t.proposal, t.audit.versionAfter) &&
    forall i | 0 <= i < 3 ::
      t.snapshots[i].path == t.audit.rollback[i] && t.results[i].path == t.audit.rollback[i] &&
      |t.snapshots[i].data| <= MAX_DOCUMENT_BYTES && |t.results[i].data| <= MAX_DOCUMENT_BYTES &&
      ValidMode(t.snapshots[i].mode) && ValidMode(t.results[i].mode)
  }

  // ---------------------------------------------------------------- results of an accept

  /** The position of the first occurrence of `pat` at or after `from`, or the length. */
  function Find(s: Bytes, pat: Bytes, from: nat): (k: nat)
    requires from <= |s|
    ensures from <= k <= |s|
    ensures k < |s| ==> k + |pat| <= |s| && s[k..k + |pat|] == pat
    decreases |s| - from
  {
    if from == |s| then |s|
    else if from + |pat| <= |s| && s[from..from + |pat|] == pat then from
    else Find(s, pat, from + 1)
  }

  function EndsInNewline(s: Bytes): bool { |s| > 0 && s[|s| - 1] == '\n' }

  function Terminated(s: Bytes): Bytes
  {
    if |s| > 0 && !EndsInNewline(s) then s + "\n" else s
  }

  /** Replaces the marker-owned block of the index, or appends one. */
  function ReplaceOwnedBlock(data: Bytes, block: Bytes): Bytes
  {
    var start := Find(data, INDEX_START, 0);
    if start < |data| then
      var close := Find(data, INDEX_END, start);
      if close < |data| then
        var stop := close + |INDEX_END|;
        var rest := if stop < |data| && data[stop] == '\n' then stop + 1 else stop;
        data[..start] + block + data[rest..]
      else Terminated(data) + block
    else Terminated(data) + block
  }

  function InsertByPath(d: Document, docs: seq<Document>): seq<Document>
  {
    if docs == [] then [d]
    else if Strings.Less(docs[0].path, d.path) then [docs[0]] + InsertByPath(d, docs[1..])
    else [d] + docs
  }

  function SortByPath(docs: seq<Document>): seq<Document>
  {
    if docs == [] then [] else InsertByPath(docs[0], SortByPath(docs[1..]))
  }

  /** The listing with the first document at `doc.path` replaced, or with `doc` added. */
  function WithDocument(docs: seq<Document>, doc: Document): seq<Document>
  {
    if docs == [] then [doc]
    else if docs[0].path == doc.path then [doc] + docs[1..]
    else [docs[0]] + WithDocument(docs[1..], doc)
  }

  /** The line of one document in the generated listing. */
  function IndexLine(w: World, doc: Document): Bytes
  {
    var title := if doc.title == "" then w.stem(doc.path) else doc.title;
    "- [" + title + "](" + doc.path + ") " + EM_DASH + " " + doc.kind + "\n"
  }

  function IndexLines(w: World, docs: seq<Document>): Bytes
  {
    if docs == [] then "" else IndexLine(w, docs[0]) + IndexLines(w, docs[1..])
  }

  function IndexBlock(w: World, docs: seq<Document>): Bytes
  {
    INDEX_START + "\n" + (if docs == [] then "_No concepts yet._\n" else IndexLines(w, docs)) + INDEX_END + "\n"
  }

  function LogLine(w: World, now: Time, path: string): Bytes
  {
    "- " + w.seconds(now) + " " + EM_DASH + " accepted `" + path + "`\n"
  }

  /** The log after an accept: the old log, terminated, and one more line. */
  function LogAfter(w: World, prior: Snapshot, now: Time, path: string): Bytes
  {
    Terminated(if prior.present then prior.data else "# Knowledge log\n") + LogLine(w, now, path)
  }

  function IndexAfter(w: World, prior: Snapshot, docs: seq<Document>, doc: Document): Bytes
  {
    ReplaceOwnedBlock(if prior.present then prior.data else "# Knowledge\n",
                      IndexBlock(w, SortByPath(WithDocument(docs, doc))))
  }

  function AcceptResults(w: World, files: map<string, FileData>, doc: Document, snapshots: seq<Snapshot>, now: Time)
    : (r: Outcome<seq<Snapshot>>)
  {
    if |snapshots| != 3 || snapshots[0].path != doc.path || snapshots[1].path != INDEX || snapshots[2].path != LOG
    then Err(Invalid("rollback snapshots"))
    else if w.marshal(doc).None? then Err(Invalid("marshal"))
    else if w.list(files).None? then Err(Invalid("list"))
    else
      Ok([Snapshot(doc.path, w.marshal(doc).value, snapshots[0].mode, true),
          Snapshot(INDEX, IndexAfter(w, snapshots[1], w.list(files).value, doc), PLAIN_MODE, true),
          Snapshot(LOG, LogAfter(w, snapshots[2], now, doc.path), PLAIN_MODE, true)])
  }

  function PrepareAccept(w: World, d: Disk, p: Proposal, candidate: Bytes, doc: Document, audit: Audit, now: Time)
    : (r: Outcome<Transaction>)
    ensures r.Ok? ==> |r.value.snapshots| == |r.value.results| == 3 && r.value.proposal.decision == Some(audit)
  {
    var snapshots :- SnapshotFiles(d.files, [p.targetPath, INDEX, LOG]);
    var results :- AcceptResults(w, d.files, doc, snapshots, now);
    var final := p.(status := "accepted", reviewedAt := w.seconds(now), decision := Some(audit));
    Ok(Transaction(TRANSACTION_SCHEMA, Prepared, final, audit, candidate, snapshots, results))
  }

  // ---------------------------------------------------------------- rollback and recovery

  function Paths(s: seq<Snapshot>): (r: seq<string>)
    ensures |r| == |s| && forall i :: 0 <= i < |s| ==> r[i] == s[i].path
  {
    seq(|s|, i requires 0 <= i < |s| => s[i].path)
  }

  /** The restoring loop from position `i` on: only a file that still holds this
      transaction's result is put back. */
  function RestoreFrom(m: Machine, current: seq<Snapshot>, original: seq<Snapshot>, results: seq<Snapshot>,
                       i: nat, external: bool): (Machine, Outcome<bool>)
    requires |current| == |original| == |results| && i <= |current|
    decreases |current| - i
  {
    if i == |current| then (m, Ok(external))
    else if current[i] == original[i] then RestoreFrom(m, current, original, results, i + 1, external)
    else if current[i] == results[i] then
      var (m1, o) := PutSnapshot(m, original[i]);
      if o.IsFailure() then (m1, o.PropagateFailure())
      else RestoreFrom(m1, current, original, results, i + 1, external)
    else RestoreFrom(m, current, original, results, i + 1, true)
  }

  /** Whether a file that ought to be restored still holds the result. */
  predicate ResultRemains(after: seq<Snapshot>, original: seq<Snapshot>, results: seq<Snapshot>)
    requires |after| == |original| == |results|
  {
    exists i :: 0 <= i < |after| && original[i] != results[i] && after[i] == results[i]
  }

  function Restore(m: Machine, original: seq<Snapshot>, results: seq<Snapshot>): (Machine, Outcome<bool>)
  {
    if |original| != |results| || |original| == 0 then (m, Err(Invalid("snapshots")))
    else if Paths(original) != Paths(results) then (m, Err(Invalid("snapshot paths")))
    else
      var current := SnapshotFiles(m.disk.files, Paths(original));
      if current.IsFailure() then (m, current.PropagateFailure())
      else
        var (m1, o) := RestoreFrom(m, current.value, original, results, 0, false);
        if o.IsFailure() then (m1, o) else (m1, LookAgain(m1.disk.files, original, results, o.value))
  }

  /** The look after restoring: an error when a result remains, otherwise whether a
      file outside the transaction's control was met or is there now. */
  function LookAgain(files: map<string, FileData>, original: seq<Snapshot>, results: seq<Snapshot>, external: bool)
    : Outcome<bool>
    requires |original| == |results|
  {
    var after :- SnapshotFiles(files, Paths(original));
    if ResultRemains(after, original, results) then Err(Invalid("result remains"))
    else Ok(external || after != original)
  }

  function Recover(w: World, m: Machine, id: string): (Machine, Outcome<()>)
  {
    if m.disk.journal.None? then (m, Ok(()))
    else
      var t := m.disk.journal.value;
      if !ValidTransaction(w, t, id) then (m, Err(Invalid("transaction")))
      else
        var current := SnapshotFiles(m.disk.files, [t.proposal.targetPath, INDEX, LOG]);
        if current.IsFailure() then (m, current.PropagateFailure())
        else
          var candidate := ReadCandidate(m.disk, t.proposal.candidatePath);
          if candidate.Err? && candidate.error != NotExist then (m, candidate.PropagateFailure())
          else
            var matches := candidate == Ok(t.candidate);
            if matches && current.value == t.results then RollForward(m, t, id)
            else RollBack(m, t, matches)
  }

  function RollForward(m: Machine, t: Transaction, id: string): (Machine, Outcome<()>)
  {
    var stored := Load(m.disk, id);
    if stored.IsFailure() then (m, stored.PropagateFailure())
    else if stored.value.decision.Some? then
      if !SameProposal(stored.value, t.proposal) then (m, Err(Invalid("record conflict")))
      else RemoveJournal(m)
    else if stored.value.status != "proposed" || !SameProposalBody(stored.value, t.proposal)
    then (m, Err(Invalid("record conflict")))
    else
      var (m1, o) := WriteRecord(m, t.proposal);
      if o.IsFailure() then (m1, o) else RemoveJournal(m1)
  }

  function RollBack(m: Machine, t: Transaction, matches: bool): (Machine, Outcome<()>)
  {
    var (m1, external) := Restore(m, t.snapshots, t.results);
    if external.IsFailure() then (m1, external.PropagateFailure())
    else
      var (m2, o) := RemoveJournal(m1);
      if o.IsFailure() then (m2, o)
      else if !matches || external.value then (m2, Err(VersionConflict))
      else (m2, Ok(()))
  }

  // ---------------------------------------------------------------- accept and reject

  /** Writes results `i` to `n` in order, each only over the snapshot it expects. */
  function WriteCanonical(m: Machine, results: seq<Snapshot>, expected: seq<Snapshot>, i: nat, n: nat)
    : (Machine, Outcome<()>)
    requires i <= n <= |results| && n <= |expected|
    decreases n - i
  {
    if i == n then (m, Ok(()))
    else if !results[i].present || results[i].path != expected[i].path then (m, Err(Invalid("result")))
    else
      var current := SnapshotFiles(m.disk.files, [results[i].path]);
      if current.IsFailure() then (m, current.PropagateFailure())
      else if current.value[0] != expected[i] then (m, Err(VersionConflict))
      else
        var (m1, o) := PutSnapshot(m, results[i]);
        if o.IsFailure() then (m1, o) else WriteCanonical(m1, results, expected, i + 1, n)
  }

  /** The rollback closure of accept: it always ends in an error or a kill. */
  function Abort(m: Machine, t: Transaction, cause: Error): (Machine, Outcome<Proposal>)
  {
    var (m1, external) := Restore(m, t.snapshots, t.results);
    FinishAbort(m1, external, cause)
  }

  function FinishAbort(m: Machine, external: Outcome<bool>, cause: Error): (Machine, Outcome<Proposal>)
  {
    if external.Killed? then (m, Killed)
    else if external.Err? then (m, Err(Join(cause, external.error)))
    else
      var (m1, o) := RemoveJournal(m);
      if o.Killed? then (m1, Killed)
      else if o.Err? then (m1, Err(Join(cause, o.error)))
      else if external.value then (m1, Err(Join(cause, VersionConflict)))
      else (m1, Err(cause))
  }

  /** Continues with the rollback when a step failed, and dies when it was killed. */
  function Bail(m: Machine, t: Transaction, o: Outcome<()>): (Machine, Outcome<Proposal>)
    requires !o.Ok?
  {
    if o.Killed? then (m, Killed) else Abort(m, t, o.error)
  }

  function CheckBase(w: World, d: Disk, p: Proposal): Outcome<()>
  {
    var current := SnapshotFiles(d.files, [p.targetPath]);
    if p.operation == "create" then
      if current.IsFailure() then current.PropagateFailure()
      else if current.value[0].present then Err(Invalid("target now exists"))
      else Ok(())
    else if current.IsFailure() || !current.value[0].present then Err(Invalid("target unavailable"))
    else if p.baseHash == "" || !EqualFold(p.baseHash, w.sha(current.value[0].data)) then Err(Invalid("target changed"))
    else Ok(())
  }

  function Lower(c: char): char { if 'A' <= c <= 'Z' then c - 'A' + 'a' else c }

  predicate EqualFold(a: string, b: string)
  {
    |a| == |b| && forall i | 0 <= i < |a| :: Lower(a[i]) == Lower(b[i])
  }

  /** Everything accept does before its first write: the transaction to run. */
  function PlanAccept(w: World, d: Disk, id: string, now: Time, audit: Audit): (r: Outcome<Transaction>)
    ensures r.Ok? ==> |r.value.snapshots| == |r.value.results| == 3 && r.value.proposal.decision == Some(audit)
  {
    var p :- Load(d, id);
    if p.status != "proposed" then Err(Invalid("status"))
    else
      var candidate :- ReadCandidate(d, p.candidatePath);
      var doc := w.parse(p.targetPath, candidate);
      if doc.None? then Err(Invalid("parse"))
      else
        var _ :- CheckBase(w, d, p);
        PrepareAccept(w, d, p, candidate, doc.value, audit, now)
  }

  function AcceptProposal(w: World, m: Machine, id: string, now: Time, audit: Audit): (Machine, Outcome<Proposal>)
  {
    var plan := PlanAccept(w, m.disk, id, now, audit);
    if plan.IsFailure() then (m, plan.PropagateFailure())
    else
      var (m1, o1) := WriteJournal(w, m, plan.value);
      if o1.IsFailure() then (m1, o1.PropagateFailure()) else WriteTarget(w, m1, plan.value)
  }

  /** The journalled part of accept: the document first, then index and log. */
  function WriteTarget(w: World, m: Machine, t: Transaction): (Machine, Outcome<Proposal>)
    requires |t.results| == |t.snapshots| == 3
  {
    var (m1, o1) := WriteCanonical(m, t.results, t.snapshots, 0, 1);
    if o1.IsFailure() then Bail(m1, t, o1)
    else
      var (m2, o2) := WriteCanonical(m1, t.results, t.snapshots, 1, 3);
      if o2.IsFailure() then Bail(m2, t, o2) else Commit(w, m2, t)
  }

  /** The end of accept: the stage, the proposal record, the journal's removal. */
  function Commit(w: World, m: Machine, t: Transaction): (Machine, Outcome<Proposal>)
  {
    var (m1, o1) := WriteJournal(w, m, t.(stage := Canonical));
    if o1.IsFailure() then Bail(m1, t, o1) else RecordDecision(m1, t)
  }

  function RecordDecision(m: Machine, t: Transaction): (Machine, Outcome<Proposal>)
  {
    var (m1, o1) := WriteRecord(m, t.proposal);
    if o1.IsFailure() then Bail(m1, t, o1)
    else
      var (m2, o2) := RemoveJournal(m1);
      if o2.IsFailure() then (m2, o2.PropagateFailure()) else (m2, Ok(t.proposal))
  }

  function RejectProposal(w: World, m: Machine, id: string, now: Time, audit: Audit): (Machine, Outcome<Proposal>)
  {
    var stored := Load(m.disk, id);
    if stored.IsFailure() then (m, stored.PropagateFailure())
    else if stored.value.status != "proposed" then (m, Err(Invalid("status")))
    else
      var final := stored.value.(status := "rejected", reviewedAt := w.seconds(now), decision := Some(audit));
      var (m1, o) := WriteRecord(m, final);
      if o.IsFailure() then (m1, o.PropagateFailure()) else (m1, Ok(final))
  }

  // ---------------------------------------------------------------- decide

  function Version(w: World, d: Disk, p: Proposal): Outcome<string>
  {
    var candidate :- ReadCandidate(d, p.candidatePath);
    Ok(w.sha(w.encode(Payload(p.id, p.operation, p.targetPath, p.candidatePath, p.baseHash, p.status,
                              p.author, p.createdAt, p.reviewedAt, w.sha(candidate)))))
  }

  /** The stored proposal and its version; unreadable review material is an error. */
  function Describe(w: World, d: Disk, id: string): Outcome<(Proposal, string)>
  {
    var p :- Load(d, id);
    var version :- Version(w, d, p);
    var _ :- SnapshotFiles(d.files, [p.targetPath]);
    Ok((p, version))
  }

  function RollbackPlan(w: World, p: Proposal): Outcome<seq<string>>
  {
    var paths := [w.resolve(p.targetPath), w.resolve(INDEX), w.resolve(LOG)];
    if paths[0].None? || paths[1].None? || paths[2].None? then Err(Invalid("unsafe path"))
    else Ok([paths[0].value, paths[1].value, paths[2].value])
  }

  /** The answer to a request about a proposal that already carries an audit. */
  function Replay(w: World, p: Proposal, version: string, audit: Audit, r: Request): Outcome<Decided>
  {
    if !ValidStoredAudit(w, audit, p, version) then Err(Invalid("audit"))
    else if audit.key != r.key then Err(VersionConflict)
    else if audit.action != r.action || audit.expectedVersion != r.expectedVersion || audit.principal != r.principal
    then Err(IdempotencyConflict)
    else Ok(Decided(p, version, audit, true))
  }

  /** The audit a fresh decision would store. */
  function PlanAudit(w: World, d: Disk, p: Proposal, version: string, r: Request, now: Time): Outcome<Audit>
  {
    var rollback :- RollbackPlan(w, p);
    var final := p.(status := if r.action.Accept? then "accepted" else "rejected",
                    reviewedAt := w.seconds(now), decision := None);
    var after :- Version(w, d, final);
    Ok(Audit(AUDIT_SCHEMA, p.id, r.action, r.key, r.principal, r.expectedVersion, version, after, w.nanos(now),
      rollback))
  }

  function Decide(w: World, m: Machine, r: Request, now: Time): (Machine, Outcome<Decided>)
  {
    if !ValidRequest(r) then (m, Err(InvalidRequest))
    else
      var (m1, recovered) := Recover(w, m, r.proposalId);
      if recovered.IsFailure() then (m1, recovered.PropagateFailure()) else Settle(w, m1, r, now)
  }

  /** Decide once recovery has left no journal behind. */
  function Settle(w: World, m: Machine, r: Request, now: Time): (Machine, Outcome<Decided>)
  {
    var state := Describe(w, m.disk, r.proposalId);
    if state.IsFailure() then (m, state.PropagateFailure())
    else
      var (p, version) := state.value;
      if p.decision.Some? then (m, Replay(w, p, version, p.decision.value, r))
      else if version != r.expectedVersion || p.status != "proposed" then (m, Err(VersionConflict))
      else
        var audit := PlanAudit(w, m.disk, p, version, r, now);
        if audit.IsFailure() then (m, audit.PropagateFailure()) else Enact(w, m, r, now, audit.value)
  }

  /** Carries out a decision whose audit is planned, and reports it once stored. */
  function Enact(w: World, m: Machine, r: Request, now: Time, audit: Audit): (Machine, Outcome<Decided>)
  {
    var (m1, done) := if r.action.Accept? then AcceptProposal(w, m, r.proposalId, now, audit)
                      else RejectProposal(w, m, r.proposalId, now, audit);
    if done.IsFailure() then (m1, done.PropagateFailure())
    else (m1, Confirm(w, m1.disk, done.value, audit.versionAfter))
  }

  function Confirm(w: World, d: Disk, p: Proposal, version: string): Outcome<Decided>
  {
    var actual :- Version(w, d, p);
    if actual != version || p.decision.None? then Err(Invalid("audit not persisted"))
    else Ok(Decided(p, actual, p.decision.value, false))
  }
}
