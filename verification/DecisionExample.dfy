/** A concrete torn accept: a log with a frontmatter block, whose proposed new text is the text it has. */
module DecisionExample {
  import Utf8
  import opened Wrappers
  import opened DecisionTypes
  import opened DecisionModel
  import opened DecisionRecovery
  import opened DecisionAtomicity
  import opened DecisionRuns
  import opened DecisionTearing

  /** The digest of everything: sixty-four zeros. */
  function Zeros(): (v: string)
    ensures |v| == 64 && forall c | c in v :: c == '0'
  {
    seq(64, _ => '0')
  }

  /** An empty frontmatter block, as the codec writes it before every body. */
  const FRONT := "---\n{}\n---\n"

  function BodyOf(data: Bytes): Bytes
  {
    if FRONT <= data then data[|FRONT|..] else data
  }

  function LogText(): Bytes
  {
    FRONT + "x"
  }

  lemma LogTextIsKept()
    ensures BodyOf(LogText()) == "x" && |LogText()| == |FRONT| + 1 && |FRONT| == 11
  {
    assert FRONT <= LogText();
    assert LogText()[|FRONT|..] == "x";
  }

  /** A codec that takes the frontmatter block off and puts it on again, and a hash that takes everything alike. */
  function PlainWorld(): World
  {
    World((p: string, b: Bytes) => Some(Document(p, "", "", BodyOf(b))), (d: Document) => Some(FRONT + d.body),
          (f: map<string, FileData>) => Some([]), (p: string) => p, (p: string) => Some(p),
          (b: Bytes) => Zeros(), (p: Payload) => "", (t: Time) => "", (t: Time) => "", (s: string) => true)
  }

  function SelfUpdate(): Disk
  {
    Disk(map[LOG := FileData(LogText(), PLAIN_MODE)], map["c" := LogText()],
         Some(Proposal("p", "update", LOG, "c", Zeros(), "proposed", "", "", "", None)), None)
  }

  function AcceptIt(): Request { Request("p", Action.Accept, Zeros(), "k", "u") }
  function ItsAudit(): Audit
  {
    Audit(AUDIT_SCHEMA, "p", Action.Accept, "k", "u", Zeros(), Zeros(), Zeros(), "", [LOG, INDEX, LOG])
  }

  /** One installed write over the snapshot it expects. */
  lemma WriteCanonicalStep(m: Machine, results: seq<Snapshot>, expected: seq<Snapshot>, i: nat, n: nat)
    requires i < n <= |results| && n <= |expected|
    requires results[i].present && results[i].path == expected[i].path && |expected[i].data| <= MAX_DOCUMENT_BYTES
    requires Observe(m.disk.files, results[i].path) == expected[i]
    requires m.script != [] && m.script[0].Installed?
    ensures WriteCanonical(m, results, expected, i, n) ==
      WriteCanonical(Machine(m.disk.(files := Put(m.disk.files, results[i])), m.script[1..]), results, expected, i + 1,
        n)
  {
    assert Readable(m.disk.files, results[i].path);
    assert ObserveAll(m.disk.files, [results[i].path]) == [expected[i]];
  }

  lemma ZerosAreValid()
    ensures ValidField(Zeros()) && forall c | c in Zeros() :: IsHex(c)
  {
    Utf8.AsciiIsPlain(Zeros());
  }

  lemma ItsFieldsAreValid()
    ensures ValidField("p") && ValidField("k") && ValidField("u")
  {
    Utf8.AsciiIsPlain("p");
    Utf8.AsciiIsPlain("k");
    Utf8.AsciiIsPlain("u");
  }

  lemma ItsDescription()
    ensures ValidRequest(AcceptIt())
    ensures Describe(PlainWorld(), SelfUpdate(), "p") == Ok((SelfUpdate().record.value, Zeros()))
    ensures PlanAudit(PlainWorld(), SelfUpdate(), SelfUpdate().record.value, Zeros(), AcceptIt(), 0) == Ok(ItsAudit())
  {
    var d := SelfUpdate();
    assert Version(PlainWorld(), d, d.record.value) == Ok(Zeros());
    assert SnapshotFiles(d.files, [LOG]).Ok?;
    ZerosAreValid();
    ItsFieldsAreValid();
  }

  const SEEN := Snapshot(LOG, LogText(), PLAIN_MODE, true)
  const MISSING := Snapshot(INDEX, [], PLAIN_MODE, false)

  function ItsPlan(): (t: Transaction)
    ensures |t.results| == |t.snapshots| == 3
  {
    Transaction(TRANSACTION_SCHEMA, Prepared,
      Proposal("p", "update", LOG, "c", Zeros(), "accepted", "", "", "", Some(ItsAudit())), ItsAudit(), LogText(),
      [SEEN, MISSING, SEEN],
      [SEEN, Snapshot(INDEX, IndexAfter(PlainWorld(), MISSING, [], Document(LOG, "", "", "x")), PLAIN_MODE, true),
       Snapshot(LOG, LogAfter(PlainWorld(), SEEN, 0, LOG), PLAIN_MODE, true)])
  }

  lemma ItIsPlanned()
    ensures PlanAccept(PlainWorld(), SelfUpdate(), "p", 0, ItsAudit()) == Ok(ItsPlan())
  {
    var d := SelfUpdate();
    var w := PlainWorld();
    LogTextIsKept();
    assert INDEX != LOG;
    assert ObserveAll(d.files, [LOG]) == [SEEN];
    assert CheckBase(w, d, d.record.value) == Ok(());
    assert ObserveAll(d.files, [LOG, INDEX, LOG]) == ItsPlan().snapshots;
    assert SnapshotFiles(d.files, [LOG, INDEX, LOG]) == Ok(ItsPlan().snapshots);
  }

  lemma ItIsSmall()
    ensures |LogText()| <= 200 && |ItsPlan().results[1].data| <= 200 && |ItsPlan().results[2].data| <= 200
  {
    LogTextIsKept();
    assert SortByPath(WithDocument([], Document(LOG, "", "", "x"))) == [Document(LOG, "", "", "x")];
    ReplaceIsShort("# Knowledge\n", IndexBlock(PlainWorld(), [Document(LOG, "", "", "x")]));
  }

  lemma ReplaceIsShort(data: Bytes, block: Bytes)
    ensures |ReplaceOwnedBlock(data, block)| <= |data| + 1 + |block|
  {}

  lemma ItIsValid()
    ensures ValidTransaction(PlainWorld(), ItsPlan(), "p")
    ensures ValidTransaction(PlainWorld(), ItsPlan().(stage := DecisionTypes.Canonical), "p")
  {
    hide ValidRequest;
    ItIsSmall();
    ItsDescription();
    assert SameAudit(ItsAudit(), ItsAudit());
  }

  lemma ItIsChecked()
    ensures Checked(SelfUpdate().files, ItsPlan().results, ItsPlan().snapshots, 0, 3)
  {
    var f0, r := SelfUpdate().files, ItsPlan().results;
    assert INDEX != LOG;
    assert Written(f0, r, 1) == f0;
    forall k | 0 <= k < 3 ensures Observe(Written(f0, r, k), r[k].path) == ItsPlan().snapshots[k] {
      if k == 2 {
        PutObserved(f0, r[1], LOG);
      }
    }
  }

  lemma ItIsWritten()
    ensures var r := WriteTarget(PlainWorld(), Machine(SelfUpdate().(journal := Some(ItsPlan())), FIRST_SIX),
      ItsPlan());
      r.1 == Ok(ItsPlan().proposal) && r.0.disk.candidates == SelfUpdate().candidates
  {
    var w, d0, t := PlainWorld(), SelfUpdate(), ItsPlan();
    ItIsChecked();
    var m := Machine(d0.(journal := Some(t)), FIRST_SIX);
    WriteCanonicalStep(m, t.results, t.snapshots, 0, 1);
    var m1 := WriteCanonical(m, t.results, t.snapshots, 0, 1).0;
    assert m1 == Machine(m.disk.(files := Written(d0.files, t.results, 1)), m.script[1..]);
    assert Observe(Written(d0.files, t.results, 1), t.results[1].path) == t.snapshots[1];
    WriteCanonicalStep(m1, t.results, t.snapshots, 1, 3);
    var m2 := Machine(m.disk.(files := Written(d0.files, t.results, 2)), m.script[2..]);
    assert Observe(Written(d0.files, t.results, 2), t.results[2].path) == t.snapshots[2];
    WriteCanonicalStep(m2, t.results, t.snapshots, 2, 3);
    var m3 := WriteCanonical(m1, t.results, t.snapshots, 1, 3).0;
    assert m3.script == [Installed, Installed, Installed];
    ItIsValid();
    ItIsCommitted(m3);
  }

  lemma ItIsCommitted(m: Machine)
    requires m.script == [Installed, Installed, Installed]
    requires ValidTransaction(PlainWorld(), ItsPlan().(stage := DecisionTypes.Canonical), "p")
    ensures var r := Commit(PlainWorld(), m, ItsPlan());
      r.1 == Ok(ItsPlan().proposal) && r.0.disk.candidates == m.disk.candidates
  {
    hide ValidRequest;
    assert ItsPlan().proposal.id == "p";
  }

  lemma ItIsAccepted()
    ensures var r := AcceptProposal(PlainWorld(), Machine(SelfUpdate(), ALL_SEVEN), "p", 0, ItsAudit());
      r.1 == Ok(ItsPlan().proposal) && r.0.disk.candidates == SelfUpdate().candidates
  {
    hide ValidRequest;
    ItIsPlanned();
    ItIsValid();
    ItIsWritten();
    var m := Machine(SelfUpdate().(journal := Some(ItsPlan())), FIRST_SIX);
    assert ALL_SEVEN[1..] == FIRST_SIX;
    assert ItsPlan().proposal.id == "p";
    assert WriteJournal(PlainWorld(), Machine(SelfUpdate(), ALL_SEVEN), ItsPlan()) == (m, Ok(()));
  }

  lemma ItGoesThrough()
    ensures Decide(PlainWorld(), Machine(SelfUpdate(), ALL_SEVEN), AcceptIt(), 0).1.Ok?
  {
    ItsDescription();
    ItIsAccepted();
    DecideOpens(PlainWorld(), SelfUpdate(), "p", ALL_SEVEN, AcceptIt(), 0, ItsAudit());
    ItIsConfirmed();
  }

  lemma ItIsConfirmed()
    requires var r := AcceptProposal(PlainWorld(), Machine(SelfUpdate(), ALL_SEVEN), "p", 0, ItsAudit());
      r.1 == Ok(ItsPlan().proposal) && r.0.disk.candidates == SelfUpdate().candidates
    ensures Enact(PlainWorld(), Machine(SelfUpdate(), ALL_SEVEN), AcceptIt(), 0, ItsAudit()).1.Ok?
  {
    var d := AcceptProposal(PlainWorld(), Machine(SelfUpdate(), ALL_SEVEN), "p", 0, ItsAudit()).0.disk;
    assert Version(PlainWorld(), d, ItsPlan().proposal) == Ok(Zeros());
  }

  /** An accept that goes through undisturbed, is killed before its last step and
      recovered, and leaves the original files under an accepted record. */
  lemma TornAcceptExists()
    ensures var w, d0 := PlainWorld(), SelfUpdate();
      Open(d0, "p") && Decide(w, Machine(d0, ALL_SEVEN), AcceptIt(), 0).1.Ok? &&
      exists script, recovery :: !Atomic(w, d0, "p", AcceptIt(), 0, script, recovery)
  {
    ItGoesThrough();
    LogTextIsKept();
    assert TornTarget(PlainWorld(), SelfUpdate());
    AtomicExactlyWhenNotTorn(PlainWorld(), SelfUpdate(), "p", AcceptIt(), 0);
  }

  // ---------------------------------------------------------------- a rejection whose time cannot be parsed back

  /** The same codec, with a clock beyond the years that the stored form of times can hold. */
  function LateWorld(): World
  {
    PlainWorld().(parsesNanos := _ => false)
  }

  function RejectIt(): Request { Request("p", Action.Reject, Zeros(), "k", "u") }

  function LateAudit(): Audit
  {
    Audit(AUDIT_SCHEMA, "p", Action.Reject, "k", "u", Zeros(), Zeros(), Zeros(), "", [LOG, INDEX, LOG])
  }

  function LateRejected(): Disk
  {
    SelfUpdate().(record := Some(SelfUpdate().record.value.(status := "rejected", decision := Some(LateAudit()))))
  }

  lemma LateDescription()
    ensures ValidRequest(RejectIt())
    ensures Describe(LateWorld(), SelfUpdate(), "p") == Ok((SelfUpdate().record.value, Zeros()))
    ensures Describe(LateWorld(), LateRejected(), "p") == Ok((LateRejected().record.value, Zeros()))
    ensures PlanAudit(LateWorld(), SelfUpdate(), SelfUpdate().record.value, Zeros(), RejectIt(), 0) == Ok(LateAudit())
    ensures Version(LateWorld(), LateRejected(), LateRejected().record.value) == Ok(Zeros())
  {
    var d, r := SelfUpdate(), LateRejected();
    LogTextIsKept();
    assert Version(LateWorld(), d, d.record.value) == Ok(Zeros());
    assert Version(LateWorld(), r, r.record.value) == Ok(Zeros());
    assert SnapshotFiles(d.files, [LOG]).Ok? && r.files == d.files;
    ZerosAreValid();
    ItsFieldsAreValid();
  }

  /** The rejection is stored and reported; the same request made again is refused for its own audit, for ever. */
  lemma LateRejectionIsNotFinal()
    ensures Open(SelfUpdate(), "p")
    ensures var out := Decide(LateWorld(), Machine(SelfUpdate(), [Installed]), RejectIt(), 0);
      out.1.Ok? && out.0.disk == LateRejected()
    ensures !Final(LateWorld(), LateRejected(), "p")
    ensures forall script, later ::
      Decide(LateWorld(), Machine(LateRejected(), script), RejectIt(), later).1 == Err(Invalid("audit"))
  {
    LateDescription();
    LateSettles();
    LateIsNotFinal();
    hide Settle, LateWorld;
    RecoverNothing(LateWorld(), Machine(SelfUpdate(), [Installed]), "p");
    forall script, later
      ensures Decide(LateWorld(), Machine(LateRejected(), script), RejectIt(), later).1 == Err(Invalid("audit"))
    {
      RecoverNothing(LateWorld(), Machine(LateRejected(), script), "p");
      LateReplay(script, later);
    }
  }

  lemma LateEnacts()
    ensures var out := Enact(LateWorld(), Machine(SelfUpdate(), [Installed]), RejectIt(), 0, LateAudit());
      out.1.Ok? && out.0.disk == LateRejected()
  {
    LateDescription();
    var d, r := SelfUpdate(), LateRejected();
    hide Describe, PlanAudit, ValidRequest, LogText;
    var done := RejectProposal(LateWorld(), Machine(d, [Installed]), "p", 0, LateAudit());
    assert d.record.value.id == "p" && d.record.value.status == "proposed";
    assert [Installed][1..] == [];
    assert LateWorld().seconds(0) == "";
    assert done.0.disk.record == r.record && done.0.disk == r;
    assert done.1 == Ok(r.record.value);
    hide Version, RejectProposal;
  }

  lemma LateSettles()
    ensures var out := Settle(LateWorld(), Machine(SelfUpdate(), [Installed]), RejectIt(), 0);
      out.1.Ok? && out.0.disk == LateRejected()
  {
    LateDescription();
    LateEnacts();
    assert SelfUpdate().record.value.status == "proposed" && SelfUpdate().record.value.decision.None?;
    hide Describe, PlanAudit, Enact, ValidRequest, SelfUpdate, LateWorld, LateAudit, Zeros;
  }

  lemma LateIsNotFinal()
    ensures !Final(LateWorld(), LateRejected(), "p")
  {
    hide ValidRequest, Describe;
  }

  lemma LateReplay(script: seq<Fault>, later: Time)
    ensures Settle(LateWorld(), Machine(LateRejected(), script), RejectIt(), later).1 == Err(Invalid("audit"))
  {
    LateDescription();
    hide Describe, PlanAudit, Version;
  }
}
