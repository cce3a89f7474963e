/** The stored entities of the knowledge review inbox: proposals, decision
    audits, file snapshots, the decision journal and the disk that holds them. */
module DecisionTypes {

  import opened Wrappers

  /** File contents; each character stands for one byte. */
  type Bytes = string

  /** A wall-clock instant; only its renderings matter. */
  type Time = int

  const MAX_DOCUMENT_BYTES := 0x40_0000
  const INDEX := "index.md"
  const LOG := "log.md"
  const PLAIN_MODE := 420  // 0o644
  const INDEX_START := "<!-- prowl:index:start -->"
  const INDEX_END := "<!-- prowl:index:end -->"
  const EM_DASH := "\U{e2}\U{80}\U{94}"  // the three UTF-8 bytes of U+2014
  const AUDIT_SCHEMA := "prowl.knowledge-decision/v1"
  const TRANSACTION_SCHEMA := "prowl.knowledge-decision-transaction/v1"

  datatype Action = Accept | Reject | Unknown(name: string)

  datatype Request = Request(
    proposalId: string, action: Action, expectedVersion: string, key: string, principal: string)

  datatype Audit = Audit(
    schema: string, proposalId: string, action: Action, key: string, principal: string,
    expectedVersion: string, versionBefore: string, versionAfter: string, decidedAt: string,
    rollback: seq<string>)

  datatype Proposal = Proposal(
    id: string, operation: string, targetPath: string, candidatePath: string, baseHash: string,
    status: string, author: string, createdAt: string, reviewedAt: string, decision: Option<Audit>)

  datatype Document = Document(path: string, title: string, kind: string, body: Bytes)

  datatype FileData = FileData(data: Bytes, mode: nat)

  datatype Snapshot = Snapshot(path: string, data: Bytes, mode: nat, present: bool)

  datatype Stage = Prepared | Canonical

  datatype Transaction = Transaction(
    schema: string, stage: Stage, proposal: Proposal, audit: Audit, candidate: Bytes,
    snapshots: seq<Snapshot>, results: seq<Snapshot>)

  /** The bundle's files together with one proposal's directory: its candidate
      files, its record and its pending decision journal. */
  datatype Disk = Disk(
    files: map<string, FileData>, candidates: map<string, Bytes>,
    record: Option<Proposal>, journal: Option<Transaction>)

  /** What becomes of one atomic write or remove: it is installed, it is refused
      with an error and changes nothing, or the process is killed before it. */
  datatype Fault = Installed | Refused | Killing

  /** A running process: the disk and the fate of the atomic steps to come. When
      the script runs out, the process is killed. */
  datatype Machine = Machine(disk: Disk, script: seq<Fault>)

  datatype Error =
    | IOFailure
    | NotExist
    | TooLarge
    | VersionConflict
    | IdempotencyConflict
    | InvalidRequest
    | Invalid(what: string)
    | Join(cause: Error, also: Error)

  datatype Outcome<+T> = Ok(value: T) | Err(error: Error) | Killed
  {
    predicate IsFailure() { !Ok? }

    function PropagateFailure<U>(): Outcome<U>
      requires !Ok?
    {
      if Err? then Err(error) else Killed
    }

    function Extract(): T
      requires Ok?
    {
      value
    }
  }

  datatype Decided = Decided(proposal: Proposal, version: string, audit: Audit, idempotent: bool)

  /** The fields hashed into a proposal's optimistic-concurrency version. */
  datatype Payload = Payload(
    id: string, operation: string, targetPath: string, candidatePath: string, baseHash: string,
    status: string, author: string, createdAt: string, reviewedAt: string, candidateHash: string)

  /** The code outside the model: the codec, the document listing, path
      resolution, hashing, JSON and time formatting. */
  datatype World = World(
    parse: (string, Bytes) -> Option<Document>,
    marshal: Document -> Option<Bytes>,
    list: map<string, FileData> -> Option<seq<Document>>,
    stem: string -> string,
    resolve: string -> Option<string>,
    sha: Bytes -> string,
    encode: Payload -> Bytes,
    seconds: Time -> string,
    nanos: Time -> string,
    parsesNanos: string -> bool)
}
