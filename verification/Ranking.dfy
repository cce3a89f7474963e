/** Ranking retrieval candidates by explicit factors. */
module Ranking {
  import opened StableSort
  import opened Strings

  /** A retrieval result with progressive detail variants; `citations` are the cited paths. */
  datatype Candidate = Candidate(
    id: string, title: string, summary: string, why: seq<string>, freshness: string, confidence: real,
      citations: seq<string>,
    compact: string, standard: string, full: string,
    lexical: real, semantic: real, direct: bool, knowledge: bool, distance: int, changed: bool,
    lowSignal: bool, lowSignalClass: string, symbolMatch: bool, pathMatch: bool)

  const LOW_SIGNAL_DAMPENING: real := 0.35
  const DOC_DAMPENING: real := 0.5
  const SYMBOL_MATCH_BOOST: real := 8.0
  const PATH_MATCH_BOOST: real := 8.0

  function Score(c: Candidate): real
  {
    var dampening := if !c.lowSignal || c.direct then 1.0 else if c.lowSignalClass ==
      "docs" then DOC_DAMPENING else LOW_SIGNAL_DAMPENING;
    c.lexical * dampening +
    (if c.semantic > 0.0 then c.semantic * 12.0 else 0.0) +
    (if c.direct then 100.0 else 0.0) +
    (if c.knowledge then 15.0 else 0.0) +
    (if c.freshness == "current" then 10.0 else if c.freshness == "stale" then -20.0 else 0.0) +
    c.confidence * 5.0 -
    (if c.distance > 0 then (c.distance * 2) as real else 0.0) +
    (if c.changed then 8.0 else 0.0) +
    (if c.symbolMatch && !c.direct && !c.lowSignal then SYMBOL_MATCH_BOOST else 0.0) +
    (if c.pathMatch && !c.direct && !c.lowSignal then PATH_MATCH_BOOST else 0.0)
  }

  function When(condition: bool, reason: string): seq<string>
  {
    if condition then [reason] else []
  }

  /** One reason for every factor that applied; `format` writes a score down. */
  function Reasons(format: real -> string, c: Candidate): seq<string>
  {
    c.why +
    When(c.lowSignal && !c.direct, c.lowSignalClass + " file, low-signal (down-weighted)") +
    When(c.semantic > 0.0, "semantic relevance score " + format(c.semantic)) +
    When(c.direct, "direct ID match") +
    When(c.knowledge, "curated knowledge") +
    When(c.freshness == "current", "evidence is current") +
    When(c.freshness == "stale", "knowledge evidence is stale") +
    When(c.distance > 0, "related at graph distance " + if c.distance > 0 then Decimal(c.distance) else "") +
    When(c.changed, "related to a changed file") +
    When(c.symbolMatch && !c.direct && !c.lowSignal, "defines a symbol matching the query") +
    When(c.pathMatch && !c.direct && !c.lowSignal, "file path names the query concept")
  }

  /** The non-empty strings, each once, in order of first appearance. */
  function Unique(values: seq<string>): seq<string>
  {
    if values == [] then []
    else
      var front, last := Unique(values[..|values| - 1]), values[|values| - 1];
      if last == "" || last in front then front else front + [last]
  }

  method UniqueStrings(values: seq<string>) returns (out: seq<string>)
    ensures out == Unique(values)
  {
    out := [];
    for i := 0 to |values|
      invariant out == Unique(values[..i])
    {
      assert values[..i + 1][..i] == values[..i];
      if values[i] != "" && values[i] !in out {
        out := out + [values[i]];
      }
    }
    assert values[..|values|] == values;
  }

  function Explained(format: real -> string, c: Candidate): Candidate
  {
    c.(why := Unique(Reasons(format, c)))
  }

  /** Higher scores first, and identifiers in order where scores tie. */
  function RankOrder(): (Candidate, Candidate) -> bool
  {
    (a: Candidate, b: Candidate) => Score(a) > Score(b) || (Score(a) == Score(b) && Less(a.id, b.id))
  }

  lemma RankOrderIsStrictWeak()
    ensures StrictWeak(RankOrder())
  {
    hide Score;
    forall a: Candidate, b: Candidate ensures RankOrder()(a, b) ==> !RankOrder()(b, a) {
      LessTotal(a.id, b.id);
    }
    forall a: Candidate, b: Candidate, c: Candidate | !RankOrder()(a, b) && !RankOrder()(b, c)
      ensures !RankOrder()(a, c) {
      if Score(a) == Score(c) {
        NotLessIsTransitive(a.id, b.id, c.id);
      }
    }
  }

  lemma NotLessIsTransitive(a: string, b: string, c: string)
    requires !Less(a, b) && !Less(b, c)
    ensures !Less(a, c)
  {
    LessTotal(a, b);
    LessTotal(b, c);
    LessTotal(a, c);
    if a != b && b != c {
      LessTransitive(c, b, a);
    }
  }

  function AllExplained(format: real -> string, candidates: seq<Candidate>): seq<Candidate>
  {
    seq(|candidates|, i requires 0 <= i < |candidates| => Explained(format, candidates[i]))
  }

  /** The candidates by falling score, then by identifier, each with the reasons for its score. */
  method RankCandidates(format: real -> string, candidates: seq<Candidate>) returns (r: seq<Candidate>)
    ensures IsStableSort(AllExplained(format, candidates), RankOrder(), r)
  {
    hide RankOrder, StrictWeak, IsStableSort;
    var explained := ExplainAll(format, candidates);
    RankOrderIsStrictWeak();
    r := Sort(explained, RankOrder());
  }

  method ExplainAll(format: real -> string, candidates: seq<Candidate>) returns (explained: seq<Candidate>)
    ensures explained == AllExplained(format, candidates)
  {
    explained := [];
    for i := 0 to |candidates|
      invariant explained == AllExplained(format, candidates[..i])
    {
      hide Reasons, Unique;
      var why := UniqueStrings(Reasons(format, candidates[i]));
      explained := explained + [candidates[i].(why := why)];
    }
    assert candidates[..|candidates|] == candidates;
  }
}
