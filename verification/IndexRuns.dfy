/** Series of runs on one store, some of them cut short: when a run leaves what indexing from scratch would leave. */
module IndexRuns {
  import opened Indexing

  ghost predicate IsRebuild(w: World, run: Run, files: Files)
  {
    Timeless(files) == Timeless(Rebuilt(w, run.opt, run.tree))
  }

  /** No path that is detected without an extractor has an old row. */
  ghost predicate NothingStranded(w: World, run: Run, files: Files)
  {
    forall p | p in run.tree.rels && Inextractable(w, run.opt, run.tree, p) :: p !in files
  }

  /** The run does not go by the hashes of a run of its own build that was cut short. */
  predicate Relies(s: Rows, run: Run)
  {
    s.complete || s.version != run.build || !run.listed
  }

  ghost predicate Follows(w: World, s: Rows, run: Run, t: Rows)
  {
    Completes(w, s, run, t) || CutShort(w, s, run, t)
  }

  ghost function TextsOf(w: World, s: Rows, run: Run, texts: Texts): Texts
  {
    TextsAfter(w, run.opt, run.tree, Start(s.files, s.version == run.build), KnownTo(s, run), texts)
  }

  /** What becomes of the texts behind the rows; those of incomplete rows are not followed. */
  ghost predicate TextsFollow(w: World, s: Rows, run: Run, t: Rows, before: Texts, after: Texts)
  {
    (Completes(w, s, run, t) && after == TextsOf(w, s, run, before)) ||
      (CutShort(w, s, run, t) && (t.complete ==> after == before))
  }

  /** The rows, and the texts behind them, before and after each of a series of runs on a new store, by any builds, with
      any options, over any trees. */
  ghost predicate History(worlds: string -> World, rows: seq<Rows>, runs: seq<Run>, texts: seq<Texts>)
  {
    |rows| == |texts| == |runs| + 1 && rows[0] == Rows(map[], "", false) &&
    forall i | 0 <= i < |runs| ::
      Follows(worlds(runs[i].build), rows[i], runs[i], rows[i + 1]) &&
      TextsFollow(worlds(runs[i].build), rows[i], runs[i], rows[i + 1], texts[i], texts[i + 1])
  }

  /** The run goes by no hashes, or tells the texts behind the rows from those it finds. */
  ghost predicate Compares(w: World, s: Rows, run: Run, texts: Texts)
  {
    s.version == run.build && run.listed ==> ToldApart(w, texts, run.tree)
  }

  /** Every run before the `n`th that completed relied on whole rows and met no stranded one. */
  ghost predicate Orderly(worlds: string -> World, rows: seq<Rows>, runs: seq<Run>, n: nat)
    requires |rows| == |runs| + 1 && n <= |runs|
  {
    forall i | 0 <= i < n && Completes(worlds(runs[i].build), rows[i], runs[i], rows[i + 1]) ::
      Relies(rows[i], runs[i]) && NothingStranded(worlds(runs[i].build), runs[i], rows[i].files)
  }

  /** One run that completes and relies on whole rows equals a rebuild exactly when nothing is stranded. */
  lemma RunIsRebuild(w: World, s: Rows, run: Run, texts: Texts)
    requires Relies(s, run) && (s.complete && s.version == run.build ==> MadeOf(w, s.files, texts)) &&
      Compares(w, s, run, texts)
    ensures IsRebuild(w, run, RunFiles(w, s, run)) <==> NothingStranded(w, run, s.files)
  {
    hide Synced, Inextractable, MadeOf, ToldApart, Timeless;
    if s.version != run.build {
      ReparseIsRebuild(w, run.opt, run.tree, Cleared(s.files));
    } else if run.listed {
      IncrementalIsRebuild(w, run.opt, run.tree, s.files, Hashes(s.files), texts);
    } else {
      ReparseIsRebuild(w, run.opt, run.tree, s.files);
    }
  }

  lemma RunIsMade(w: World, s: Rows, run: Run, texts: Texts)
    requires Relies(s, run) && (s.complete && s.version == run.build ==> MadeOf(w, s.files, texts))
    requires NothingStranded(w, run, s.files)
    ensures MadeOf(w, RunFiles(w, s, run), TextsOf(w, s, run, texts))
  {
    hide Synced, Inextractable, MadeOf, TextsAfter;
    SyncedIsMade(w, run.opt, run.tree, Start(s.files, s.version == run.build), KnownTo(s, run), texts);
  }

  /** Rows that are marked complete are what their build makes of their texts, however the series went. */
  lemma {:induction false} CompleteIsMade(worlds: string -> World, rows: seq<Rows>, runs: seq<Run>, texts: seq<Texts>,
    n: nat)
    requires History(worlds, rows, runs, texts) && n <= |runs| && Orderly(worlds, rows, runs, n)
    ensures rows[n].complete ==> MadeOf(worlds(rows[n].version), rows[n].files, texts[n])
  {
    hide MadeOf, Completes, CutShort, Relies, NothingStranded, TextsOf;
    if n > 0 {
      CompleteIsMade(worlds, rows, runs, texts, n - 1);
      var s, run, t := rows[n - 1], runs[n - 1], rows[n];
      var w := worlds(run.build);
      assert TextsFollow(w, s, run, t, texts[n - 1], texts[n]);
      if Completes(w, s, run, t) {
        CompletedRows(w, s, run, t);
        RunIsMade(w, s, run, texts[n - 1]);
      }
      if CutShort(w, s, run, t) {
        CutIsIncomplete(w, s, run, t);
      }
    }
  }

  lemma CompletedRows(w: World, s: Rows, run: Run, t: Rows)
    requires Completes(w, s, run, t)
    ensures t == Rows(RunFiles(w, s, run), run.build, true)
  {}

  lemma CutIsIncomplete(w: World, s: Rows, run: Run, t: Rows)
    requires CutShort(w, s, run, t)
    ensures t.complete ==> t == s
  {
    hide CutFiles;
  }

  /** After any series of runs, whole or cut short, a run that completes equals a rebuild of what it saw exactly when
      nothing is stranded, provided that no run went by the hashes of one of its own build that was cut short, and that
      this one tells the texts it compares apart. */
  lemma SeriesIsRebuild(worlds: string -> World, rows: seq<Rows>, runs: seq<Run>, texts: seq<Texts>, n: nat)
    requires History(worlds, rows, runs, texts) && n < |runs| && Orderly(worlds, rows, runs, n) &&
      Relies(rows[n], runs[n])
    requires Completes(worlds(runs[n].build), rows[n], runs[n], rows[n + 1])
    requires Compares(worlds(runs[n].build), rows[n], runs[n], texts[n])
    ensures IsRebuild(worlds(runs[n].build), runs[n], rows[n + 1].files) <==>
      NothingStranded(worlds(runs[n].build), runs[n], rows[n].files)
  {
    hide Follows, TextsFollow, Orderly, Compares, MadeOf, Relies, IsRebuild, NothingStranded;
    CompleteIsMade(worlds, rows, runs, texts, n);
    RunIsRebuild(worlds(runs[n].build), rows[n], runs[n], texts[n]);
  }

  /** With an extractor for every language, nothing is ever stranded. */
  lemma SeriesOfExtractingBuilds(worlds: string -> World, rows: seq<Rows>, runs: seq<Run>, texts: seq<Texts>, n: nat)
    requires History(worlds, rows, runs, texts) && n < |runs|
    requires forall i | 0 <= i <= n :: ExtractsAll(worlds(runs[i].build))
    requires forall i | 0 <= i <= n && Completes(worlds(runs[i].build), rows[i], runs[i], rows[i + 1]) ::
      Relies(rows[i], runs[i])
    requires Completes(worlds(runs[n].build), rows[n], runs[n], rows[n + 1])
    requires Compares(worlds(runs[n].build), rows[n], runs[n], texts[n])
    ensures IsRebuild(worlds(runs[n].build), runs[n], rows[n + 1].files)
  {
    assert forall i | 0 <= i <= n :: NothingStranded(worlds(runs[i].build), runs[i], rows[i].files);
    hide Follows, TextsFollow, Compares, ExtractsAll, Relies, Completes, NothingStranded, IsRebuild;
    SeriesIsRebuild(worlds, rows, runs, texts, n);
  }

  // ---------------------------------------------------------------- going by the hashes of a run that was cut short

  /** A row that has the hash of a text that its build would make another row of. */
  ghost predicate Misleads(w: World, files: Files, p: string, raw: string)
  {
    var text := w.strip(p, raw);
    p in files && !w.generated(p) && !w.blank(text) && w.detect(p, Head(text)) != "" && Extractable(w, p, text) &&
    files[p].hash == w.hash(text) && files[p].(mtime := 0) != EntryOf(w, p, text, 0)
  }

  /** Whatever rows a store holds, going by their hashes gives a rebuild on every tree where nothing is stranded exactly
      when no row misleads. */
  lemma ResumingIsRebuild(w: World, s: Rows)
    ensures (forall run: Run | run.listed && run.build == s.version && NothingStranded(w, run, s.files) ::
               IsRebuild(w, run, RunFiles(w, s, run))) <==>
            (forall p, raw :: !Misleads(w, s.files, p, raw))
  {
    if p, raw :| Misleads(w, s.files, p, raw) {
      var run := Run(s.version, [], Tree([p], map[p := raw], _ => 0), true);
      MisledRun(w, s, run, p, raw);
      assert run.listed && run.build == s.version && NothingStranded(w, run, s.files);
    } else {
      forall run: Run | run.listed && run.build == s.version && NothingStranded(w, run, s.files)
        ensures IsRebuild(w, run, RunFiles(w, s, run))
      {
        ResumedRunIsRebuild(w, s, run);
      }
    }
  }

  /** A tree of the one path that is misled about. */
  lemma MisledRun(w: World, s: Rows, run: Run, p: string, raw: string)
    requires Misleads(w, s.files, p, raw)
    requires run.build == s.version && run.listed && run.opt == [] && run.tree.rels == [p] &&
      run.tree.data == map[p := raw]
    ensures NothingStranded(w, run, s.files) && !IsRebuild(w, run, RunFiles(w, s, run))
  {
    assert Source(w, run.tree, p) == w.strip(p, raw) && Detected(w, run.opt, run.tree, p);
    MisledAt(w, s, run, p);
  }

  /** The same for one run: it gives a rebuild exactly when no row misleads about a text the run finds. */
  lemma ResumedRunIsRebuild(w: World, s: Rows, run: Run)
    requires run.listed && run.build == s.version && NothingStranded(w, run, s.files)
    ensures IsRebuild(w, run, RunFiles(w, s, run)) <==>
      forall p | p in run.tree.rels && Detected(w, run.opt, run.tree, p) :: !Misleads(w, s.files, p, run.tree.data[p])
  {
    var a, b := RunFiles(w, s, run), Rebuilt(w, run.opt, run.tree);
    if p :| p in run.tree.rels && Detected(w, run.opt, run.tree, p) && Misleads(w, s.files, p, run.tree.data[p]) {
      MisledAt(w, s, run, p);
    } else {
      forall p ensures (p in a <==> p in b) && (p in a ==> a[p].(mtime := 0) == b[p].(mtime := 0)) {
        HonestAt(w, s, run, p);
      }
      hide RunFiles, Rebuilt, Misleads, NothingStranded;
      assert Timeless(a).Keys == Timeless(b).Keys;
    }
  }

  lemma MisledAt(w: World, s: Rows, run: Run, p: string)
    requires run.listed && run.build == s.version && p in run.tree.rels && Detected(w, run.opt, run.tree, p)
    requires Misleads(w, s.files, p, run.tree.data[p])
    ensures !IsRebuild(w, run, RunFiles(w, s, run))
  {
    var a, b := RunFiles(w, s, run), Rebuilt(w, run.opt, run.tree);
    assert !Parses(w, run.opt, run.tree, KnownTo(s, run), p) && Parses(w, run.opt, run.tree, map[], p);
    assert p in a && p in b;
    assert Timeless(a)[p] == s.files[p].(mtime := 0);
    assert Timeless(b)[p] == EntryOf(w, p, Source(w, run.tree, p), 0);
  }

  lemma HonestAt(w: World, s: Rows, run: Run, p: string)
    requires run.listed && run.build == s.version && NothingStranded(w, run, s.files)
    requires p in run.tree.rels && Detected(w, run.opt, run.tree, p) ==> !Misleads(w, s.files, p, run.tree.data[p])
    ensures var a, b := RunFiles(w, s, run), Rebuilt(w, run.opt, run.tree);
      (p in a <==> p in b) && (p in a ==> a[p].(mtime := 0) == b[p].(mtime := 0))
  {}

  /** A run of another build is cut off behind its reset: the next run of the old build finds every hash unchanged and
      keeps the rows without what was extracted. */
  lemma CutResetIsKept(w: World, other: World, s: Rows, cut: Run, again: Run, p: string)
    requires cut.build != s.version == again.build && again.listed && p in again.tree.rels && p in s.files
    requires Detected(w, again.opt, again.tree, p) && s.files[p].content != ""
    requires s.files[p] == EntryOf(w, p, Source(w, again.tree, p), s.files[p].mtime)
    ensures var t := Rows(Cleared(s.files), s.version, false);
      CutShort(other, s, cut, t) && p in RunFiles(w, t, again) && RunFiles(w, t, again)[p].content == "" &&
      !IsRebuild(w, again, RunFiles(w, t, again))
  {
    var t := Rows(Cleared(s.files), s.version, false);
    assert cut.tree.rels[..0] == [];
    assert Applied(other, cut.opt, cut.tree, map[], cut.tree.rels[..0], t.files, t.files);
    KeepsHashed(w, t, again, p);
  }

  /** A run is cut off between the row of a file and what it extracted: the next run of the same build finds the new
      hash and keeps the old extraction under it. */
  lemma HalfWrittenIsKept(w: World, s: Rows, run: Run, e: Entry)
    requires run.build == s.version && run.listed && |run.tree.rels| > 0
    requires ParseFile(w, run.opt, run.tree, run.tree.rels[0], Hashes(s.files)) == Parsed(e)
    requires e.content != if run.tree.rels[0] in s.files then s.files[run.tree.rels[0]].content else ""
    ensures var p := run.tree.rels[0]; var t := Rows(HalfWritten(s.files, p, e), s.version, false);
      CutShort(w, s, run, t) && p in RunFiles(w, t, run) && RunFiles(w, t, run)[p] == t.files[p] &&
      !IsRebuild(w, run, RunFiles(w, t, run))
  {
    var p := run.tree.rels[0];
    var t := Rows(HalfWritten(s.files, p, e), s.version, false);
    assert run.tree.rels[..0] == [];
    assert HalfApplied(w, run.opt, run.tree, KnownTo(s, run), 0, s.files, s.files, t.files);
    assert CutFiles(w, run.opt, run.tree, KnownTo(s, run), s.files, t.files);
    KeepsHashed(w, t, run, p);
  }

  /** A row with the hash of the text is kept, and a rebuild differs if that is not what the build makes of the text. */
  lemma KeepsHashed(w: World, t: Rows, run: Run, p: string)
    requires run.build == t.version && run.listed && p in run.tree.rels && p in t.files
    requires Detected(w, run.opt, run.tree, p) && t.files[p].hash == w.hash(Source(w, run.tree, p))
    requires t.files[p].content != EntryOf(w, p, Source(w, run.tree, p), 0).content
    ensures p in RunFiles(w, t, run) && RunFiles(w, t, run)[p] == t.files[p]
    ensures !IsRebuild(w, run, RunFiles(w, t, run))
  {
    var a, b := RunFiles(w, t, run), Rebuilt(w, run.opt, run.tree);
    assert !Parses(w, run.opt, run.tree, KnownTo(t, run), p);
    assert p in a && a[p] == t.files[p];
    assert Timeless(a)[p].content == t.files[p].content;
    if p in b {
      assert Timeless(b)[p].content == EntryOf(w, p, Source(w, run.tree, p), 0).content;
    } else {
      assert p in Timeless(a) && p !in Timeless(b);
    }
  }

  // ---------------------------------------------------------------- one source, two builds

  /** A build that indexes every text as it stands. */
  function Verbatim(): World
  {
    World(_ => false, (_, text) => text, text => text == "", (_, _) => "go", text => text, _ => true,
          (_, _, text) => (text, 0), (_, _) => "code", lang => lang)
  }

  function OneSource(): Run
  {
    Run("A", [], Tree(["x.go"], map["x.go" := "x"], _ => 0), true)
  }

  function OneRow(): Entry
  {
    EntryOf(Verbatim(), "x.go", "x", 0)
  }

  lemma OneSourceIsIndexed(s: Rows)
    requires s.files == map[]
    ensures RunFiles(Verbatim(), s, OneSource()) == map["x.go" := OneRow()]
  {
    var w, run := Verbatim(), OneSource();
    assert Parses(w, run.opt, run.tree, KnownTo(s, run), "x.go");
    assert "x.go" in RunFiles(w, s, run);
  }

  function WholeRows(): Rows
  {
    Rows(map["x.go" := OneRow()], "A", true)
  }

  function EmptiedRows(complete: bool): Rows
  {
    Rows(map["x.go" := OneRow().(content := "")], "A", complete)
  }

  /** Build A completes, build B is cut off behind its reset, and A completes again over the same source: every run
      before the last is orderly, and the last one does not rebuild. */
  lemma CutResetFails()
    ensures var rows := [Rows(map[], "", false), WholeRows(), EmptiedRows(false), EmptiedRows(true)];
      var runs := [OneSource(), OneSource().(build := "B"), OneSource()];
      var texts := [map[], TextsOf(Verbatim(), rows[0], runs[0], map[]), map[],
        TextsOf(Verbatim(), rows[2], runs[2], map[])];
      History(_ => Verbatim(), rows, runs, texts) && Orderly(_ => Verbatim(), rows, runs, 2) &&
      Completes(Verbatim(), rows[2], runs[2], rows[3]) && !IsRebuild(Verbatim(), runs[2], rows[3].files)
  {
    FirstCompletes();
    SecondIsCut();
    NoneStranded(map[]);
    NoneStranded(WholeRows().files);
    hide Verbatim, Completes, CutShort, IsRebuild, OneRow, NothingStranded, TextsOf;
  }

  lemma NoneStranded(files: Files)
    ensures NothingStranded(Verbatim(), OneSource(), files) &&
      NothingStranded(Verbatim(), OneSource().(build := "B"), files)
  {}

  lemma FirstCompletes()
    ensures Completes(Verbatim(), Rows(map[], "", false), OneSource(), WholeRows())
  {
    OneSourceIsIndexed(Rows(map[], "", false));
    hide RunFiles, OneRow, Verbatim;
  }

  lemma SourceIsDetected()
    ensures Detected(Verbatim(), OneSource().opt, OneSource().tree, "x.go")
    ensures Source(Verbatim(), OneSource().tree, "x.go") == "x"
    ensures OneRow().content != "" && OneRow().hash == "x" && OneRow().mtime == 0
  {}

  lemma SecondIsCut()
    ensures CutShort(Verbatim(), WholeRows(), OneSource().(build := "B"), EmptiedRows(false))
    ensures Completes(Verbatim(), EmptiedRows(false), OneSource(), EmptiedRows(true))
    ensures !IsRebuild(Verbatim(), OneSource(), EmptiedRows(true).files)
  {
    SourceIsDetected();
    OnlySource(EmptiedRows(false));
    hide Verbatim, Detected, CutShort, IsRebuild, RunFiles, EntryOf, Source;
    assert Cleared(WholeRows().files) == EmptiedRows(false).files;
    assert WholeRows().files["x.go"] == OneRow() == EntryOf(Verbatim(), "x.go", "x", OneRow().mtime);
    CutResetIsKept(Verbatim(), Verbatim(), WholeRows(), OneSource().(build := "B"), OneSource(), "x.go");
  }

  lemma OnlySource(s: Rows)
    requires s.files.Keys == {"x.go"} && s.version == "A" && s.files["x.go"].hash == "x"
    ensures RunFiles(Verbatim(), s, OneSource()) == s.files
  {
    var w, run := Verbatim(), OneSource();
    assert !Parses(w, run.opt, run.tree, KnownTo(s, run), "x.go");
    assert Detected(w, run.opt, run.tree, "x.go");
  }
}
