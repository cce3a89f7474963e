/** A refresh indexes into a generation beside the published rows, checks it against the sources once more, publishes
    it whole or not at all, and then embeds what is published. */
module Refresh {
  import opened Indexing

  /** Every row still matches its source, and no expected source was left out. */
  ghost predicate Validated(w: World, opt: Languages, files: Files, checked: Tree, expected: seq<string>)
  {
    (forall p | p in files :: p in checked.data && files[p].hash == w.hash(Source(w, checked, p))) &&
    forall p | p in expected && !w.generated(p) ::
      p in checked.data && (LanguageOf(w, opt, p, Source(w, checked, p)) != "" ==> p in files)
  }

  /** The sources a validated generation accounts for: the expected paths and its own. */
  ghost predicate Accounts(files: Files, checked: Tree, expected: seq<string>, tree: Tree)
  {
    tree.data == checked.data && forall p :: p in tree.rels <==> p in expected || p in files
  }

  /** A row that a run leaves is that of the text the run read. */
  lemma SyncedMatchesRead(w: World, opt: Languages, seen: Tree, files: Files, known: map<string, string>, texts: Texts,
    p: string)
    requires ExtractsAll(w) && p in Synced(w, opt, seen, files, known) && GoesBy(w, seen, files, known, texts)
    ensures Detected(w, opt, seen, p) && TextsAfter(w, opt, seen, files, known, texts)[p] == Source(w, seen, p)
    ensures var e := Synced(w, opt, seen, files, known)[p];
      e == EntryOf(w, p, Source(w, seen, p), e.mtime)
  {
    if !Parses(w, opt, seen, known, p) {
      UnchangedIsCurrent(w, opt, seen, files, texts, p);
    }
  }

  /** Whatever the sources did while they were being indexed, a validated generation is what indexing the validated
      sources from scratch would give, if the texts read are told from those validated. */
  lemma ValidatedIsRebuilt(w: World, opt: Languages, seen: Tree, files: Files, known: map<string, string>, texts: Texts,
                           checked: Tree, expected: seq<string>, tree: Tree)
    requires ExtractsAll(w) && GoesBy(w, seen, files, known, texts)
    requires ToldApart(w, TextsAfter(w, opt, seen, files, known, texts), checked)
    requires Validated(w, opt, Synced(w, opt, seen, files, known), checked, expected)
    requires Accounts(Synced(w, opt, seen, files, known), checked, expected, tree)
    ensures Timeless(Synced(w, opt, seen, files, known)) == Timeless(Rebuilt(w, opt, tree))
  {
    hide Synced, Rebuilt, GoesBy, ToldApart, TextsAfter, Validated, Accounts, ExtractsAll;
    var a, b := Synced(w, opt, seen, files, known), Rebuilt(w, opt, tree);
    forall p ensures (p in a <==> p in b) && (p in a ==> a[p].(mtime := 0) == b[p].(mtime := 0)) {
      RowIsRebuilt(w, opt, seen, files, known, texts, checked, expected, tree, p);
    }
    assert Timeless(a).Keys == Timeless(b).Keys;
  }

  lemma RowIsRebuilt(w: World, opt: Languages, seen: Tree, files: Files, known: map<string, string>, texts: Texts,
                     checked: Tree, expected: seq<string>, tree: Tree, p: string)
    requires ExtractsAll(w) && GoesBy(w, seen, files, known, texts)
    requires ToldApart(w, TextsAfter(w, opt, seen, files, known, texts), checked)
    requires Validated(w, opt, Synced(w, opt, seen, files, known), checked, expected)
    requires Accounts(Synced(w, opt, seen, files, known), checked, expected, tree)
    ensures var a, b := Synced(w, opt, seen, files, known), Rebuilt(w, opt, tree);
      (p in a <==> p in b) && (p in a ==> a[p].(mtime := 0) == b[p].(mtime := 0))
  {
    var a, b := Synced(w, opt, seen, files, known), Rebuilt(w, opt, tree);
    if p in a {
      SyncedMatchesRead(w, opt, seen, files, known, texts, p);
      assert Source(w, seen, p) == Source(w, checked, p);
    }
  }

  // ---------------------------------------------------------------- the published index

  datatype Snapshot = Snapshot(files: Files, version: string, complete: bool, signature: int)

  /** What one attempt sees of the sources, which may look different each time: for the first signature, while they are
      indexed, for the second signature, and while they are validated; whether the old rows could be listed; and whether
      the embedding pass behind the publication fails, and the caller has given up by then. */
  datatype Attempt = Attempt(pre: Tree, seen: Tree, post: Tree, checked: Tree, listed: bool, embedFails: bool,
    cancelled: bool)

  /** What a published generation holds: signed alike before and behind the indexing, rows made of their texts, and, if
      these are told from the sources validated, the rows a rebuild of those would give. */
  ghost predicate Publishes(w: World, opt: Languages, build: string, sign: Tree -> int, a: Attempt, s: Snapshot,
    texts: Texts)
  {
    s.version == build && s.complete && s.signature == sign(a.pre) == sign(a.post) &&
    (ExtractsAll(w) ==> MadeOf(w, s.files, texts)) && (ExtractsAll(w) && ToldApart(w, texts, a.checked) ==>
      forall tree | Accounts(s.files, a.checked, a.pre.rels, tree) ::
        Timeless(s.files) == Timeless(Rebuilt(w, opt, tree)))
  }

  /** Where the run goes by hashes, the texts behind the published rows are told from those it finds. */
  ghost predicate Tells(w: World, build: string, published: Snapshot, texts: Texts, a: Attempt)
  {
    published.version == build && a.listed ==> ToldApart(w, texts, a.seen)
  }

  class Project {
    /** What each build of the program does with files. */
    const worlds: string -> World
    var published: Snapshot
    var interrupts: seq<bool>
    /** The text each published row was made of. */
    ghost var texts: Texts

    constructor (worlds: string -> World)
      ensures this.worlds == worlds && published == Snapshot(map[], "", false, 0) && Valid()
    {
      this.worlds, texts := worlds, map[];
      published := Snapshot(map[], "", false, 0);
      interrupts := [];
    }

    /** Every published row is what the build that published it makes of its text. */
    ghost predicate Valid()
      reads this
    {
      MadeOf(worlds(published.version), published.files, texts)
    }

    method Step() returns (ok: bool)
      modifies this`interrupts
    {
      ok := interrupts == [] || !interrupts[0];
      if interrupts != [] {
        interrupts := interrupts[1..];
      }
    }

    /** One attempt. Nothing is published before everything is validated; what is published stays, even when the caller
        gives up during the embedding behind it. The rows kept are those of the texts found if those are told from the
        texts behind the published rows. */
    method Refresh(opt: Languages, build: string, sign: Tree -> int, a: Attempt) returns (end: Ending, committed: bool)
      requires Valid()
      modifies this
      ensures !committed ==> published == old(published) && texts == old(texts)
      ensures committed && Tells(worlds(build), build, old(published), old(texts), a) ==>
        Publishes(worlds(build), opt, build, sign, a, published, texts)
      ensures committed ==> (published.version == build && published.complete &&
        published.signature == sign(a.pre) == sign(a.post))
      ensures committed && ExtractsAll(worlds(build)) ==> Valid()
      ensures end.Completed? <==> committed && !(a.embedFails && a.cancelled)
      ensures end.SourcesChanged? ==> !committed
    {
      hide MadeOf, ToldApart, RunFiles, TextsAfter, Validated, Accounts, Timeless, Rebuilt, ExtractsAll, CutShort,
        Tells;
      end, committed := Interrupted, false;
      var w := worlds(build);
      var ok := Step();
      if !ok {
        return;
      }
      var preSignature := sign(a.pre);
      var generation := new IndexStore(published.files, published.version, published.complete, interrupts);
      ghost var before := generation.State();
      var run, summary := Run(build, opt, a.seen, a.listed), Summary(0, 0, 0, 0);
      end, summary := generation.IndexWithOptions(w, run);
      interrupts := generation.interrupts;
      if !end.Completed? {
        return;
      }
      end := Interrupted;
      ok := Step();
      if !ok {
        return;
      }
      if sign(a.post) != preSignature {
        end := SourcesChanged;
        return;
      }
      ok := Validate(w, opt, generation.files, a.checked, a.pre.rels);
      if !ok {
        end := SourcesChanged;
        return;
      }
      ok := Step();
      if !ok {
        return;
      }
      Publish(w, before, run, a, generation.files, preSignature);
      committed := true;
      end := if a.embedFails && a.cancelled then Interrupted else Completed;
    }

    /** Puts a validated generation in the place of the published rows. */
    method Publish(w: World, ghost before: Rows, run: Run, ghost a: Attempt, files: Files, signature: int)
      requires before.files == published.files && before.version == published.version && run.tree == a.seen &&
        run.listed == a.listed
      requires files == RunFiles(w, before, run) && Validated(w, run.opt, files, a.checked, a.pre.rels)
      requires before.version == run.build ==> MadeOf(w, before.files, texts)
      modifies this`published, this`texts
      ensures published == Snapshot(files, run.build, true, signature)
      ensures ExtractsAll(w) ==> MadeOf(w, published.files, texts)
      ensures Tells(w, run.build, old(published), old(texts), a) && ExtractsAll(w) && ToldApart(w, texts, a.checked) ==>
        forall tree | Accounts(published.files, a.checked, a.pre.rels, tree) ::
          Timeless(published.files) == Timeless(Rebuilt(w, run.opt, tree))
    {
      hide MadeOf, ToldApart, RunFiles, TextsAfter, Validated, Accounts, Timeless, Rebuilt, ExtractsAll, Start, KnownTo;
      GenerationIsMade(w, before, run, texts);
      if Tells(w, run.build, published, texts, a) {
        GenerationIsRebuilt(w, before, run, a, texts);
      }
      texts := TextsAfter(w, run.opt, a.seen, Start(before.files, before.version == run.build), KnownTo(before, run),
        texts);
      published := Snapshot(files, run.build, true, signature);
    }

    /** A refresh tries a second time when the sources changed meanwhile. Whatever fails, the published rows are the old
        ones or a validated generation, and they are marked incomplete if that mark can be written. */
    method RefreshWithProgress(opt: Languages, build: string, sign: Tree -> int, first: Attempt, second: Attempt)
      returns (end: Ending, again: bool, committed: bool, marked: bool)
      requires Valid()
      modifies this
      ensures Valid() || !ExtractsAll(worlds(build))
      ensures var a := if again then second else first;
        && (end.Completed? <==> committed && !(a.embedFails && a.cancelled))
        && (committed && Tells(worlds(build), build, old(published), old(texts), a) ==>
            Publishes(worlds(build), opt, build, sign, a, published.(complete := true), texts))
        && (!committed ==> published.(complete := true) == old(published).(complete := true))
      ensures published.complete == ((committed || old(published.complete)) && !marked)
      ensures marked ==> !end.Completed?
      ensures !again ==> !end.SourcesChanged?
    {
      marked, again := false, false;
      end, committed := Refresh(opt, build, sign, first);
      if end.SourcesChanged? {
        again := true;
        end, committed := Refresh(opt, build, sign, second);
      }
      if !end.Completed? {
        marked := Step();
        if marked {
          published := published.(complete := false);
        }
      }
    }

    /** Reads every indexed and every expected source once more. */
    method Validate(w: World, opt: Languages, files: Files, checked: Tree, expected: seq<string>) returns (ok: bool)
      modifies this`interrupts
      ensures ok ==> Validated(w, opt, files, checked, expected)
    {
      var left := files.Keys;
      while left != {}
        invariant left <= files.Keys
        invariant forall p | p in files && p !in left ::
          p in checked.data && files[p].hash == w.hash(Source(w, checked, p))
        decreases left
      {
        ok := Step();
        if !ok {
          return;
        }
        var p :| p in left;
        if p !in checked.data || |Source(w, checked, p)| != files[p].size ||
          w.hash(Source(w, checked, p)) != files[p].hash {
          return false;
        }
        left := left - {p};
      }
      for i := 0 to |expected|
        invariant forall p | p in expected[..i] && !w.generated(p) ::
          p in checked.data && (LanguageOf(w, opt, p, Source(w, checked, p)) != "" ==> p in files)
      {
        ok := Step();
        if !ok {
          return;
        }
        var rel := expected[i];
        assert expected[..i + 1] == expected[..i] + [rel];
        if w.generated(rel) {
          continue;
        }
        if rel !in checked.data || (LanguageOf(w, opt, rel, Source(w, checked, rel)) != "" && rel !in files) {
          return false;
        }
      }
      assert expected[..|expected|] == expected;
      ok := true;
    }
  }

  lemma GenerationIsMade(w: World, before: Rows, run: Run, texts: Texts)
    requires before.version == run.build ==> MadeOf(w, before.files, texts)
    ensures ExtractsAll(w) ==> MadeOf(w, RunFiles(w, before, run),
      TextsAfter(w, run.opt, run.tree, Start(before.files, before.version == run.build), KnownTo(before, run), texts))
  {
    if ExtractsAll(w) {
      SyncedIsMade(w, run.opt, run.tree, Start(before.files, before.version == run.build), KnownTo(before, run), texts);
    }
  }

  /** What a completed run leaves in its generation is, once validated, fit to be published. */
  lemma GenerationIsRebuilt(w: World, before: Rows, run: Run, a: Attempt, texts: Texts)
    requires before.version == run.build ==> (MadeOf(w, before.files, texts) &&
      (run.listed ==> ToldApart(w, texts, a.seen)))
    requires run.tree == a.seen && Validated(w, run.opt, RunFiles(w, before, run), a.checked, a.pre.rels)
    ensures var start, known := Start(before.files, before.version == run.build), KnownTo(before, run);
      ExtractsAll(w) && ToldApart(w, TextsAfter(w, run.opt, run.tree, start, known, texts), a.checked) ==>
        forall tree | Accounts(RunFiles(w, before, run), a.checked, a.pre.rels, tree) ::
          Timeless(RunFiles(w, before, run)) == Timeless(Rebuilt(w, run.opt, tree))
  {
    var start, known := Start(before.files, before.version == run.build), KnownTo(before, run);
    if ExtractsAll(w) && ToldApart(w, TextsAfter(w, run.opt, run.tree, start, known, texts), a.checked) {
      forall tree | Accounts(RunFiles(w, before, run), a.checked, a.pre.rels, tree)
        ensures Timeless(RunFiles(w, before, run)) == Timeless(Rebuilt(w, run.opt, tree))
      {
        ValidatedIsRebuilt(w, run.opt, a.seen, start, known, texts, a.checked, a.pre.rels, tree);
      }
    }
  }
}
