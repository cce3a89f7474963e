/** Incremental indexing of a source tree: single runs, runs that are cut short, and series of both. */
module Indexing {
  import opened Wrappers

  type Content = string

  /** What one build of the program does with a file: `strip` removes generated text, `detect` names a language from
      the path and the head of the text, and `extract` yields symbols, resources and chunks, and what was redacted. */
  datatype World = World(
    generated: string -> bool,
    strip: (string, string) -> string,
    blank: string -> bool,
    detect: (string, string) -> string,
    hash: string -> string,
    hasExtractor: string -> bool,
    extract: (string, string, string) -> (Content, nat),
    role: (string, string) -> string,
    plain: string -> string)

  /** A file row and what was extracted from the file. */
  datatype Entry = Entry(lang: string, role: string, size: nat, hash: string, mtime: int, redacted: nat,
    content: Content)

  /** One look at the source tree: the paths walked, and what reading them gives; a path without data cannot be read. */
  datatype Tree = Tree(rels: seq<string>, data: map<string, string>, mtime: string -> int)

  type Languages = seq<string>

  function Head(text: string): string
  {
    if |text| > 512 then text[..512] else text
  }

  predicate LanguageAllowed(w: World, lang: string, configured: Languages)
  {
    configured == [] || exists c | c in configured :: w.plain(c) == "auto" || w.plain(c) == "*" || w.plain(c) == lang
  }

  /** The language a stripped text is indexed under; empty when it is not indexed. */
  function LanguageOf(w: World, opt: Languages, rel: string, text: string): string
  {
    if w.blank(text) || !LanguageAllowed(w, w.detect(rel, Head(text)), opt) then "" else w.detect(rel, Head(text))
  }

  function Source(w: World, tree: Tree, rel: string): string
    requires rel in tree.data
  {
    w.strip(rel, tree.data[rel])
  }

  predicate Detected(w: World, opt: Languages, tree: Tree, rel: string)
  {
    !w.generated(rel) && rel in tree.data && LanguageOf(w, opt, rel, Source(w, tree, rel)) != ""
  }

  /** The entry of a text under a language. */
  function EntryOf(w: World, rel: string, text: string, mtime: int): Entry
  {
    var lang := w.detect(rel, Head(text));
    var (content, redacted) := w.extract(rel, lang, text);
    Entry(lang, w.role(rel, lang), |text|, w.hash(text), mtime, redacted, content)
  }

  predicate Extractable(w: World, rel: string, text: string)
  {
    w.hasExtractor(w.detect(rel, Head(text)))
  }

  datatype FileParse = Broken | Undetected | Unchanged | NoExtractor | Parsed(entry: Entry)

  /** What a worker makes of one file, given the hashes known before the run. */
  function ParseFile(w: World, opt: Languages, tree: Tree, rel: string, known: map<string, string>): FileParse
  {
    if w.generated(rel) then Undetected
    else if rel !in tree.data then Broken
    else if !Detected(w, opt, tree, rel) then Undetected
    else
      var text := Source(w, tree, rel);
      if rel in known && known[rel] == w.hash(text) then Unchanged
      else if !Extractable(w, rel, text) then NoExtractor
      else Parsed(EntryOf(w, rel, text, tree.mtime(rel)))
  }

  // ---------------------------------------------------------------- what a run leaves

  type Files = map<string, Entry>

  function Hashes(files: Files): map<string, string>
  {
    map p | p in files :: files[p].hash
  }

  /** A reset clears what was extracted and keeps the file rows. */
  function Cleared(files: Files): Files
  {
    map p | p in files :: files[p].(content := "")
  }

  ghost predicate Parses(w: World, opt: Languages, tree: Tree, known: map<string, string>, p: string)
  {
    ParseFile(w, opt, tree, p, known).Parsed?
  }

  /** The files after a completed run from `files`. */
  ghost function Synced(w: World, opt: Languages, tree: Tree, files: Files, known: map<string, string>): Files
  {
    map p | p in tree.rels && Detected(w, opt, tree, p) && (p in files || Parses(w, opt, tree, known, p)) ::
      if Parses(w, opt, tree, known, p) then ParseFile(w, opt, tree, p, known).entry else files[p]
  }

  /** Indexing from scratch. */
  ghost function Rebuilt(w: World, opt: Languages, tree: Tree): Files
  {
    Synced(w, opt, tree, map[], map[])
  }

  /** The rows with modification times left aside. */
  ghost function Timeless(files: Files): Files
  {
    map p | p in files :: files[p].(mtime := 0)
  }

  /** The text each row was made of. */
  type Texts = map<string, string>

  /** Every entry is what this build makes of its text, which it can extract. */
  ghost predicate MadeOf(w: World, files: Files, texts: Texts)
  {
    forall p | p in files :: p in texts && Extractable(w, p, texts[p]) &&
      files[p] == EntryOf(w, p, texts[p], files[p].mtime)
  }

  /** Where a text is compared with the source at its path, equal hashes mean equal texts. */
  ghost predicate ToldApart(w: World, texts: Texts, tree: Tree)
  {
    forall p | p in texts && p in tree.data && w.hash(texts[p]) == w.hash(Source(w, tree, p)) ::
      texts[p] == Source(w, tree, p)
  }

  /** The texts of the rows a run leaves: those it parsed, and those of the rows it kept. */
  ghost function TextsAfter(w: World, opt: Languages, tree: Tree, files: Files, known: map<string, string>,
    texts: Texts): Texts
  {
    map p | p in Synced(w, opt, tree, files, known) ::
      if Parses(w, opt, tree, known, p) then Source(w, tree, p) else if p in texts then texts[p] else ""
  }

  /** What a run goes by: nothing, or the hashes of rows whose texts it tells from those it finds. */
  ghost predicate GoesBy(w: World, tree: Tree, files: Files, known: map<string, string>, texts: Texts)
  {
    known == map[] || (known == Hashes(files) && MadeOf(w, files, texts) && ToldApart(w, texts, tree))
  }

  /** Every language has an extractor, if only the generic one. */
  ghost predicate ExtractsAll(w: World)
  {
    forall lang | lang != "" :: w.hasExtractor(lang)
  }

  /** A path whose language is detected but has no extractor. */
  ghost predicate Inextractable(w: World, opt: Languages, tree: Tree, p: string)
  {
    Detected(w, opt, tree, p) && !Extractable(w, p, Source(w, tree, p))
  }

  /** A detected file whose hash matches that of its row has that very row. */
  lemma UnchangedIsCurrent(w: World, opt: Languages, tree: Tree, files: Files, texts: Texts, p: string)
    requires MadeOf(w, files, texts) && ToldApart(w, texts, tree) && Detected(w, opt, tree, p) && p in files
    requires files[p].hash == w.hash(Source(w, tree, p))
    ensures files[p] == EntryOf(w, p, Source(w, tree, p), files[p].mtime) && Extractable(w, p, Source(w, tree, p))
    ensures texts[p] == Source(w, tree, p)
  {}

  /** At a detected path without an inextractable old row, both ways end alike. */
  lemma SameAtPath(w: World, opt: Languages, tree: Tree, files: Files, known: map<string, string>, texts: Texts,
    p: string)
    requires GoesBy(w, tree, files, known, texts)
    requires Detected(w, opt, tree, p) && (Inextractable(w, opt, tree, p) ==> p !in files)
    ensures (p in files || Parses(w, opt, tree, known, p)) <==> Parses(w, opt, tree, map[], p)
    ensures Parses(w, opt, tree, map[], p) ==>
      (if Parses(w, opt, tree, known, p) then ParseFile(w, opt, tree, p, known).entry else files[p]).(mtime := 0) ==
      ParseFile(w, opt, tree, p, map[]).entry.(mtime := 0)
  {
    if known != map[] && p in files && files[p].hash == w.hash(Source(w, tree, p)) {
      UnchangedIsCurrent(w, opt, tree, files, texts, p);
    }
  }

  /** An incremental run from the rows of completed runs of the same build equals a rebuild, modification times aside,
      exactly when no path that is detected without an extractor has an old row. */
  lemma IncrementalIsRebuild(w: World, opt: Languages, tree: Tree, files: Files, known: map<string, string>,
    texts: Texts)
    requires GoesBy(w, tree, files, known, texts)
    ensures Timeless(Synced(w, opt, tree, files, known)) == Timeless(Rebuilt(w, opt, tree)) <==>
      forall p | p in tree.rels && Inextractable(w, opt, tree, p) :: p !in files
  {
    var a, b := Synced(w, opt, tree, files, known), Rebuilt(w, opt, tree);
    if forall p | p in tree.rels && Inextractable(w, opt, tree, p) :: p !in files {
      forall p ensures (p in a <==> p in b) && (p in a ==> a[p].(mtime := 0) == b[p].(mtime := 0)) {
        if p in tree.rels && Detected(w, opt, tree, p) {
          SameAtPath(w, opt, tree, files, known, texts, p);
        }
      }
    } else {
      var p :| p in tree.rels && Inextractable(w, opt, tree, p) && p in files;
      assert p in Timeless(a) && p !in Timeless(b);
    }
  }

  /** A full re-parse equals a rebuild under the same condition, whatever the old rows are. */
  lemma ReparseIsRebuild(w: World, opt: Languages, tree: Tree, files: Files)
    ensures Timeless(Synced(w, opt, tree, files, map[])) == Timeless(Rebuilt(w, opt, tree)) <==>
      forall p | p in tree.rels && Inextractable(w, opt, tree, p) :: p !in files
  {
    var a, b := Synced(w, opt, tree, files, map[]), Rebuilt(w, opt, tree);
    if p :| p in tree.rels && Inextractable(w, opt, tree, p) && p in files {
      assert p in Timeless(a) && p !in Timeless(b);
    } else {
      assert a == b;
    }
  }

  /** A run keeps its rows made of their texts, so that the next incremental run may build on them. */
  lemma SyncedIsMade(w: World, opt: Languages, tree: Tree, files: Files, known: map<string, string>, texts: Texts)
    requires MadeOf(w, files, texts) ||
      (known == map[] && forall p | p in tree.rels && Inextractable(w, opt, tree, p) :: p !in files)
    ensures MadeOf(w, Synced(w, opt, tree, files, known), TextsAfter(w, opt, tree, files, known, texts))
  {}

  // ---------------------------------------------------------------- a run

  datatype Summary = Summary(indexed: nat, parsed: nat, skipped: nat, deleted: nat)

  /** The rows a run starts from: a new build clears what the old one extracted. */
  function Start(files: Files, sameBuild: bool): Files
  {
    if sameBuild then files else Cleared(files)
  }

  /** The rows after the parses of all walked files have been applied. */
  ghost predicate Applied(w: World, opt: Languages, tree: Tree, known: map<string, string>, rels: seq<string>,
      start: Files, after: Files)
  {
    (forall p :: p in after <==> p in start || (p in rels && Parses(w, opt, tree, known, p))) &&
    forall p | p in after :: AppliedAt(w, opt, tree, known, rels, start, p) == Some(after[p])
  }

  ghost function AppliedAt(w: World, opt: Languages, tree: Tree, known: map<string, string>, rels: seq<string>,
      start: Files, p: string): Option<Entry>
  {
    if p in rels && Parses(w, opt, tree, known, p) then Some(ParseFile(w, opt, tree, p, known).entry)
    else if p in start then Some(start[p]) else None
  }

  ghost function DetectedIn(w: World, opt: Languages, tree: Tree, rels: seq<string>): set<string>
  {
    set p | p in rels && Detected(w, opt, tree, p)
  }

  lemma AppliedNext(w: World, opt: Languages, tree: Tree, known: map<string, string>, rels: seq<string>, rel: string,
                    start: Files, before: Files)
    requires Applied(w, opt, tree, known, rels, start, before)
    ensures var r := ParseFile(w, opt, tree, rel, known);
      Applied(w, opt, tree, known, rels + [rel], start, if r.Parsed? then before[rel := r.entry] else before)
    ensures var r := ParseFile(w, opt, tree, rel, known);
      DetectedIn(w, opt, tree, rels + [rel]) == DetectedIn(w, opt, tree, rels) +
        (if r.Broken? || r.Undetected? then {} else {rel})
  {
    var r := ParseFile(w, opt, tree, rel, known);
    assert (r.Broken? || r.Undetected?) == !Detected(w, opt, tree, rel);
    assert Parses(w, opt, tree, known, rel) == r.Parsed?;
    hide ParseFile, Detected, Parses;
    var more := rels + [rel];
    assert forall p :: p in more <==> p in rels || p == rel;
    DetectedNext(w, opt, tree, rels, rel);
    var after := if r.Parsed? then before[rel := r.entry] else before;
    forall p | p in after ensures AppliedAt(w, opt, tree, known, more, start, p) == Some(after[p]) {
      if p != rel || !r.Parsed? {
        assert AppliedAt(w, opt, tree, known, more, start, p) == AppliedAt(w, opt, tree, known, rels, start, p);
      }
    }
  }

  lemma DetectedNext(w: World, opt: Languages, tree: Tree, rels: seq<string>, rel: string)
    ensures DetectedIn(w, opt, tree, rels + [rel]) ==
      DetectedIn(w, opt, tree, rels) + (if Detected(w, opt, tree, rel) then {rel} else {})
  {
    hide Detected;
    assert forall p :: p in rels + [rel] <==> p in rels || p == rel;
  }

  lemma AppliedIsSynced(w: World, opt: Languages, tree: Tree, known: map<string, string>, start: Files, after: Files)
    requires Applied(w, opt, tree, known, tree.rels, start, after)
    ensures var removed := after.Keys - DetectedIn(w, opt, tree, tree.rels);
      after - removed == Synced(w, opt, tree, start, known) && removed == start.Keys - (after - removed).Keys
  {
    var current := DetectedIn(w, opt, tree, tree.rels);
    var kept := after - (after.Keys - current);
    var synced := Synced(w, opt, tree, start, known);
    assert forall p | p in tree.rels && Parses(w, opt, tree, known, p) :: p in current;
    hide Parses, ParseFile, Detected;
    forall p ensures p in kept <==> p in synced {
      assert p in kept <==> p in after && p in current;
    }
    forall p | p in kept ensures kept[p] == synced[p] {
      assert AppliedAt(w, opt, tree, known, tree.rels, start, p) == Some(after[p]);
    }
    assert kept == synced;
  }

  /** A parsed file is written in two steps: its row first, what was extracted from it second. */
  function HalfWritten(files: Files, rel: string, entry: Entry): Files
  {
    files[rel := entry.(content := if rel in files then files[rel].content else "")]
  }

  // ---------------------------------------------------------------- one run, whole or cut short

  datatype Rows = Rows(files: Files, version: string, complete: bool)

  /** One run: the build, its options and the tree it sees; `listed` says whether the old rows could be listed. */
  datatype Run = Run(build: string, opt: Languages, tree: Tree, listed: bool)

  datatype Ending = Completed | SourcesChanged | Interrupted

  function KnownTo(s: Rows, run: Run): map<string, string>
  {
    if run.listed && s.version == run.build then Hashes(s.files) else map[]
  }

  ghost function RunFiles(w: World, s: Rows, run: Run): Files
  {
    Synced(w, run.opt, run.tree, Start(s.files, s.version == run.build), KnownTo(s, run))
  }

  ghost predicate Completes(w: World, s: Rows, run: Run, t: Rows)
  {
    t == Rows(RunFiles(w, s, run), run.build, true)
  }

  /** What a run cut short among the files leaves: some of the walked files applied, and the next one perhaps half; or
      all of them, and some of the rows that are to go deleted. */
  ghost predicate CutFiles(w: World, opt: Languages, tree: Tree, known: map<string, string>, start: Files, after: Files)
  {
    (exists n: nat :: n <= |tree.rels| && Applied(w, opt, tree, known, tree.rels[..n], start, after)) ||
    (exists n: nat, before :: n < |tree.rels| && HalfApplied(w, opt, tree, known, n, start, before, after)) ||
    (exists full, gone :: Applied(w, opt, tree, known, tree.rels, start, full) &&
      gone <= full.Keys - DetectedIn(w, opt, tree, tree.rels) && after == full - gone)
  }

  ghost predicate HalfApplied(w: World, opt: Languages, tree: Tree, known: map<string, string>, n: nat, start: Files,
      before: Files, after: Files)
    requires n < |tree.rels|
  {
    Applied(w, opt, tree, known, tree.rels[..n], start, before) && Parses(w, opt, tree, known, tree.rels[n]) &&
    after == HalfWritten(before, tree.rels[n], ParseFile(w, opt, tree, tree.rels[n], known).entry)
  }

  /** A run that does not complete keeps the old version and is marked incomplete, unless it is cut before that mark or
      behind the new version. */
  ghost predicate CutShort(w: World, s: Rows, run: Run, t: Rows)
  {
    t == s || t == s.(complete := false) || t == Rows(RunFiles(w, s, run), run.build, false) ||
    (t.version == s.version && !t.complete &&
     CutFiles(w, run.opt, run.tree, KnownTo(s, run), Start(s.files, s.version == run.build), t.files))
  }

  class IndexStore {
    var files: Files
    var version: string
    var complete: bool
    /** For each coming step that can be cut short, whether it is. */
    var interrupts: seq<bool>

    constructor (files: Files, version: string, complete: bool, interrupts: seq<bool>)
      ensures State() == Rows(files, version, complete)
    {
      this.files, this.version, this.complete, this.interrupts := files, version, complete, interrupts;
    }

    function State(): Rows
      reads this
    {
      Rows(files, version, complete)
    }

    method Attempt() returns (ok: bool)
      modifies this`interrupts
    {
      ok := interrupts == [] || !interrupts[0];
      if interrupts != [] {
        interrupts := interrupts[1..];
      }
    }

    /** Synchronizes the rows with the tree. */
    method IndexWithOptions(w: World, run: Run) returns (end: Ending, sum: Summary)
      modifies this
      ensures if end.Completed? then Completes(w, old(State()), run, State())
              else CutShort(w, old(State()), run, State())
      ensures end.Completed? ==> (sum.deleted == |old(files).Keys - files.Keys| &&
        sum.parsed + sum.skipped <= sum.indexed)
    {
      hide Synced, CutFiles, Hashes, Cleared;
      sum, end := Summary(0, 0, 0, 0), Interrupted;
      var ok := Attempt();
      if !ok {
        return;
      }
      complete := false;
      ok := Attempt();
      if !ok {
        return;
      }
      var known: map<string, string> := map[];
      if version != run.build {
        ClearedKeys(files);
        files := Cleared(files);
      } else if run.listed {
        known := Hashes(files);
      }
      end, sum := SyncFiles(w, run.opt, run.tree, known);
      if !end.Completed? {
        return;
      }
      version := run.build;
      complete := true;
      ok := Attempt();
      if !ok {
        complete := false;
        end := Interrupted;
      }
    }

    /** Brings the rows in line with the tree, from the rows as they are and the hashes to go by. */
    method SyncFiles(w: World, opt: Languages, tree: Tree, known: map<string, string>)
      returns (end: Ending, sum: Summary)
      modifies this`files, this`interrupts
      ensures if end.Completed? then files == Synced(w, opt, tree, old(files), known)
              else CutFiles(w, opt, tree, known, old(files), files)
      ensures end.Completed? ==> (sum.deleted == |old(files).Keys - files.Keys| &&
        sum.parsed + sum.skipped <= sum.indexed)
    {
      hide Synced, Applied, DetectedIn, CutFiles;
      var current;
      end, sum, current := ParseAll(w, opt, tree, known);
      if !end.Completed? {
        return;
      }
      AppliedIsSynced(w, opt, tree, known, old(files), files);
      ghost var full := files;
      var ok, removed := RemoveMissing(current);
      if ok {
        sum := sum.(deleted := |removed|);
        ok := Attempt();
      }
      if !ok {
        CutWhileRemoving(w, opt, tree, known, old(files), full, removed);
        end := Interrupted;
      }
    }

    /** Applies the parse of every walked file, in order. */
    method ParseAll(w: World, opt: Languages, tree: Tree, known: map<string, string>)
      returns (end: Ending, sum: Summary, current: set<string>)
      modifies this`files, this`interrupts
      ensures end.Completed? ==>
        current == DetectedIn(w, opt, tree, tree.rels) && Applied(w, opt, tree, known, tree.rels, old(files), files)
      ensures !end.Completed? ==> CutFiles(w, opt, tree, known, old(files), files)
      ensures sum.parsed + sum.skipped <= sum.indexed && sum.deleted == 0
    {
      sum, current, end := Summary(0, 0, 0, 0), {}, Completed;
      for i := 0 to |tree.rels|
        invariant end.Completed? && sum.parsed + sum.skipped <= sum.indexed && sum.deleted == 0
        invariant current == DetectedIn(w, opt, tree, tree.rels[..i])
        invariant Applied(w, opt, tree, known, tree.rels[..i], old(files), files)
      {
        hide Applied, DetectedIn, ParseFile, CutFiles, Detected;
        assert tree.rels[..i + 1] == tree.rels[..i] + [tree.rels[i]];
        DetectedNext(w, opt, tree, tree.rels[..i], tree.rels[i]);
        DetectedHasParse(w, opt, tree, tree.rels[i], known);
        var parse;
        end, parse := ParseOne(w, opt, tree, known, i, old(files));
        if !end.Completed? {
          return;
        }
        if !parse.Undetected? {
          current := current + {tree.rels[i]};
          sum := sum.(indexed := sum.indexed + 1);
        }
        if parse.Unchanged? {
          sum := sum.(skipped := sum.skipped + 1);
        } else if parse.Parsed? {
          sum := sum.(parsed := sum.parsed + 1);
        }
      }
      assert tree.rels[..|tree.rels|] == tree.rels;
    }

    /** Applies the parse of one file: its row first, what was extracted from it second. */
    method ParseOne(w: World, opt: Languages, tree: Tree, known: map<string, string>, i: nat, ghost start: Files)
      returns (end: Ending, parse: FileParse)
      requires i < |tree.rels| && Applied(w, opt, tree, known, tree.rels[..i], start, files)
      modifies this`files, this`interrupts
      ensures parse == ParseFile(w, opt, tree, tree.rels[i], known) &&
        (parse.Broken? ==> end.SourcesChanged? || end.Interrupted?)
      ensures if end.Completed? then Applied(w, opt, tree, known, tree.rels[..i] + [tree.rels[i]], start, files)
              else CutFiles(w, opt, tree, known, start, files)
    {
      var rel := tree.rels[i];
      AppliedNext(w, opt, tree, known, tree.rels[..i], rel, start, files);
      CutWhileParsing(w, opt, tree, known, i, start, files);
      hide *;
      parse, end := ParseFile(w, opt, tree, rel, known), Interrupted;
      var ok := Attempt();
      if !ok {
        return;
      }
      match parse {
        case Broken => end := SourcesChanged;
        case Parsed(entry) =>
          ghost var before := files;
          files := HalfWritten(files, rel, entry);
          ok := Attempt();
          if !ok {
            return;
          }
          files := files[rel := entry];
          WrittenOver(before, rel, entry);
          end := Completed;
        case _ => end := Completed;
      }
    }

    /** Deletes the rows of files that are no longer in the project. */
    method RemoveMissing(current: set<string>) returns (ok: bool, removed: set<string>)
      modifies this`files, this`interrupts
      ensures files == old(files) - removed && removed <= old(files).Keys - current
      ensures ok ==> removed == old(files).Keys - current
    {
      ok, removed := true, {};
      var left := files.Keys;
      while left != {}
        invariant ok && left <= old(files).Keys
        invariant removed == (old(files).Keys - left) - current && files == old(files) - removed
        decreases left
      {
        ok := Attempt();
        if !ok {
          return;
        }
        var p :| p in left;
        if p !in current {
          files := files - {p};
          removed := removed + {p};
        }
        left := left - {p};
      }
    }
  }

  lemma ClearedKeys(files: Files)
    ensures Cleared(files).Keys == files.Keys
  {}

  lemma DetectedHasParse(w: World, opt: Languages, tree: Tree, rel: string, known: map<string, string>)
    ensures var r := ParseFile(w, opt, tree, rel, known); Detected(w, opt, tree, rel) <==> !r.Broken? && !r.Undetected?
  {}

  lemma WrittenOver(files: Files, rel: string, entry: Entry)
    ensures HalfWritten(files, rel, entry)[rel := entry] == files[rel := entry]
  {}

  lemma CutWhileParsing(w: World, opt: Languages, tree: Tree, known: map<string, string>, i: nat, start: Files,
    files: Files)
    requires i < |tree.rels| && Applied(w, opt, tree, known, tree.rels[..i], start, files)
    ensures CutFiles(w, opt, tree, known, start, files)
    ensures var r := ParseFile(w, opt, tree, tree.rels[i], known);
      r.Parsed? ==> CutFiles(w, opt, tree, known, start, HalfWritten(files, tree.rels[i], r.entry))
  {
    hide Applied, ParseFile;
    var r := ParseFile(w, opt, tree, tree.rels[i], known);
    if r.Parsed? {
      assert HalfApplied(w, opt, tree, known, i, start, files, HalfWritten(files, tree.rels[i], r.entry));
    }
  }

  lemma CutWhileRemoving(w: World, opt: Languages, tree: Tree, known: map<string, string>, start: Files, full: Files,
                         gone: set<string>)
    requires Applied(w, opt, tree, known, tree.rels, start, full) &&
      gone <= full.Keys - DetectedIn(w, opt, tree, tree.rels)
    ensures CutFiles(w, opt, tree, known, start, full - gone)
  {
    hide Applied, DetectedIn;
  }
}
