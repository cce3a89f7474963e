/** PageRank over file dependencies, in real arithmetic: the dangling mass is shared
    out, so the scores of all files always sum to one. */
module Centrality {
  import opened Sequences

  type Path = string

  datatype Edge = Edge(src: Path, dst: Path)

  const DAMPING := 0.85
  const ITERATIONS := 40

  // ---------------------------------------------------------------- sums

  ghost function Sum(paths: seq<Path>, f: Path -> real): real
  {
    if paths == [] then 0.0 else Sum(paths[..|paths| - 1], f) + f(paths[|paths| - 1])
  }

  lemma {:induction false} SumSame(paths: seq<Path>, f: Path -> real, g: Path -> real)
    requires forall p | p in paths :: f(p) == g(p)
    ensures Sum(paths, f) == Sum(paths, g)
  {
    if paths != [] {
      SumSame(paths[..|paths| - 1], f, g);
    }
  }

  lemma {:induction false} SumAdds(paths: seq<Path>, f: Path -> real, g: Path -> real, h: Path -> real)
    requires forall p | p in paths :: h(p) == f(p) + g(p)
    ensures Sum(paths, h) == Sum(paths, f) + Sum(paths, g)
  {
    if paths != [] {
      SumAdds(paths[..|paths| - 1], f, g, h);
    }
  }

  lemma {:induction false} SumAffine(paths: seq<Path>, base: real, c: real, f: Path -> real, h: Path -> real)
    requires forall p | p in paths :: h(p) == base + c * f(p)
    ensures Sum(paths, h) == base * |paths| as real + c * Sum(paths, f)
  {
    if paths != [] {
      var front, last := paths[..|paths| - 1], paths[|paths| - 1];
      SumAffine(front, base, c, f, h);
      assert c * Sum(paths, f) == c * Sum(front, f) + c * f(last);
      assert base * |paths| as real == base * |front| as real + base;
    }
  }

  lemma {:induction false} SumConstant(paths: seq<Path>, c: real, h: Path -> real)
    requires forall p | p in paths :: h(p) == c
    ensures Sum(paths, h) == c * |paths| as real
  {
    if paths != [] {
      SumConstant(paths[..|paths| - 1], c, h);
      assert c * |paths| as real == c * (|paths| - 1) as real + c;
    }
  }

  /** A term that differs from zero at one path only. */
  lemma {:induction false} SumSingle(paths: seq<Path>, end: Path, share: real, h: Path -> real)
    requires Distinct(paths) && forall p | p in paths :: h(p) == if p == end then share else 0.0
    ensures Sum(paths, h) == if end in paths then share else 0.0
  {
    if paths != [] {
      var front := paths[..|paths| - 1];
      SumSingle(front, end, share, h);
      assert paths == front + [paths[|paths| - 1]];
    }
  }

  // ---------------------------------------------------------------- the graph

  /** An edge that counts: between two different known files. */
  predicate Counts(paths: seq<Path>, e: Edge)
  {
    e.src != e.dst && e.src in paths && e.dst in paths
  }

  function OutDegree(paths: seq<Path>, edges: seq<Edge>, p: Path): nat
  {
    if edges == [] then 0
    else
      var last := edges[|edges| - 1];
      OutDegree(paths, edges[..|edges| - 1], p) + if Counts(paths, last) && last.src == p then 1 else 0
  }

  /** The sources of the counting edges into `p`, one for each edge. */
  function Sources(paths: seq<Path>, edges: seq<Edge>, p: Path): seq<Path>
  {
    if edges == [] then []
    else
      var last := edges[|edges| - 1];
      Sources(paths, edges[..|edges| - 1], p) + if Counts(paths, last) && last.dst == p then [last.src] else []
  }

  lemma {:induction false} SourcesSend(paths: seq<Path>, edges: seq<Edge>, p: Path, q: Path)
    requires q in Sources(paths, edges, p)
    ensures q in paths && OutDegree(paths, edges, q) > 0
  {
    var front, last := edges[..|edges| - 1], edges[|edges| - 1];
    if q in Sources(paths, front, p) {
      SourcesSend(paths, front, p, q);
    }
  }

  /** What flows into `p` when every source sends `g` along each of its edges. */
  ghost function Inflow(paths: seq<Path>, edges: seq<Edge>, g: Path -> real, p: Path): real
  {
    Sum(Sources(paths, edges, p), g)
  }

  ghost function Inflows(paths: seq<Path>, edges: seq<Edge>, g: Path -> real): Path -> real
  {
    p => Inflow(paths, edges, g, p)
  }

  ghost function Outflow(paths: seq<Path>, edges: seq<Edge>, g: Path -> real, p: Path): real
  {
    OutDegree(paths, edges, p) as real * g(p)
  }

  ghost function Outflows(paths: seq<Path>, edges: seq<Edge>, g: Path -> real): Path -> real
  {
    p => Outflow(paths, edges, g, p)
  }

  /** The share of one edge at one end. */
  ghost function At(end: Path, share: real): Path -> real
  {
    p => if p == end then share else 0.0
  }

  lemma InflowStep(paths: seq<Path>, edges: seq<Edge>, g: Path -> real, p: Path)
    requires edges != []
    ensures var last := edges[|edges| - 1];
      Inflow(paths, edges, g, p) == Inflow(paths, edges[..|edges| - 1], g, p) +
        At(last.dst, if Counts(paths, last) then g(last.src) else 0.0)(p)
  {
    var front, last := edges[..|edges| - 1], edges[|edges| - 1];
    var before := Sources(paths, front, p);
    if Counts(paths, last) && last.dst == p {
      assert Sources(paths, edges, p)[..|before|] == before;
    } else {
      assert Sources(paths, edges, p) == before;
    }
  }

  lemma OutflowStep(paths: seq<Path>, edges: seq<Edge>, g: Path -> real, p: Path)
    requires edges != []
    ensures var last := edges[|edges| - 1];
      Outflow(paths, edges, g, p) == Outflow(paths, edges[..|edges| - 1], g, p) +
        At(last.src, if Counts(paths, last) then g(last.src) else 0.0)(p)
  {
    var k := OutDegree(paths, edges[..|edges| - 1], p);
    assert (k + 1) as real * g(p) == k as real * g(p) + g(p);
  }

  /** Every edge is counted once where it ends and once where it starts. */
  lemma {:induction false} DoubleCounting(paths: seq<Path>, edges: seq<Edge>, g: Path -> real)
    requires Distinct(paths)
    ensures Sum(paths, Inflows(paths, edges, g)) == Sum(paths, Outflows(paths, edges, g))
  {
    var ins, outs := Inflows(paths, edges, g), Outflows(paths, edges, g);
    if edges == [] {
      SumSame(paths, ins, outs);
    } else {
      var front, last := edges[..|edges| - 1], edges[|edges| - 1];
      var share := if Counts(paths, last) then g(last.src) else 0.0;
      var ins0, outs0 := Inflows(paths, front, g), Outflows(paths, front, g);
      DoubleCounting(paths, front, g);
      forall p ensures ins(p) == ins0(p) + At(last.dst, share)(p) {
        InflowStep(paths, edges, g, p);
      }
      forall p ensures outs(p) == outs0(p) + At(last.src, share)(p) {
        OutflowStep(paths, edges, g, p);
      }
      SumAdds(paths, ins0, At(last.dst, share), ins);
      SumAdds(paths, outs0, At(last.src, share), outs);
      SumSingle(paths, last.dst, share, At(last.dst, share));
      SumSingle(paths, last.src, share, At(last.src, share));
    }
  }

  // ---------------------------------------------------------------- one iteration

  /** What each file sends along each of its edges. */
  ghost function Sent(paths: seq<Path>, edges: seq<Edge>, score: Path -> real): Path -> real
  {
    p => var k := OutDegree(paths, edges, p); if k == 0 then 0.0 else score(p) / k as real
  }

  /** The mass of each file without dependencies. */
  ghost function Idle(paths: seq<Path>, edges: seq<Edge>, score: Path -> real): Path -> real
  {
    p => if OutDegree(paths, edges, p) == 0 then score(p) else 0.0
  }

  /** The part of the next score that every file gets. */
  ghost function Base(paths: seq<Path>, edges: seq<Edge>, score: Path -> real): real
    requires paths != []
  {
    (1.0 - DAMPING) / |paths| as real + DAMPING * Sum(paths, Idle(paths, edges, score)) / |paths| as real
  }

  /** The scores after one more iteration. */
  ghost function Next(paths: seq<Path>, edges: seq<Edge>, score: Path -> real): Path -> real
    requires paths != []
  {
    var base, inflow := Base(paths, edges, score), Inflows(paths, edges, Sent(paths, edges, score));
    p => base + DAMPING * inflow(p)
  }

  /** What flows in over the edges is what the files with dependencies hold. */
  lemma FlowIsConserved(paths: seq<Path>, edges: seq<Edge>, score: Path -> real)
    requires Distinct(paths)
    ensures Sum(paths, Inflows(paths, edges, Sent(paths, edges, score))) + Sum(paths, Idle(paths, edges, score))
      == Sum(paths, score)
  {
    var sent := Sent(paths, edges, score);
    var outs, idle := Outflows(paths, edges, sent), Idle(paths, edges, score);
    DoubleCounting(paths, edges, sent);
    hide *;
    forall p ensures score(p) == outs(p) + idle(p) {
      ScoreIsSplit(paths, edges, score, p);
    }
    SumAdds(paths, outs, idle, score);
  }

  lemma ScoreIsSplit(paths: seq<Path>, edges: seq<Edge>, score: Path -> real, p: Path)
    ensures score(p) == Outflows(paths, edges, Sent(paths, edges, score))(p) + Idle(paths, edges, score)(p)
  {
    hide OutDegree;
    OutflowIsScore(OutDegree(paths, edges, p), score(p));
  }

  lemma OutflowIsScore(k: nat, x: real)
    ensures k != 0 ==> k as real * (x / k as real) == x
  {}

  /** One iteration turns scores that sum to one into scores that sum to one. */
  lemma MassIsConserved(paths: seq<Path>, edges: seq<Edge>, score: Path -> real)
    requires Distinct(paths) && paths != [] && Sum(paths, score) == 1.0
    ensures Sum(paths, Next(paths, edges, score)) == 1.0
  {
    hide Sum, Base, Inflows, Sent, Idle;
    FlowIsConserved(paths, edges, score);
    SumAffine(paths, Base(paths, edges, score), DAMPING, Inflows(paths, edges, Sent(paths, edges, score)),
      Next(paths, edges, score));
    BaseIsTotal(paths, edges, score);
  }

  lemma BaseIsTotal(paths: seq<Path>, edges: seq<Edge>, score: Path -> real)
    requires paths != []
    ensures Base(paths, edges, score) * |paths| as real == (1.0 - DAMPING) +
      DAMPING * Sum(paths, Idle(paths, edges, score))
  {
    hide Sum, Idle;
    BaseTotal(|paths| as real, Sum(paths, Idle(paths, edges, score)));
  }

  lemma BaseTotal(n: real, idle: real)
    requires n > 0.0
    ensures ((1.0 - DAMPING) / n + DAMPING * idle / n) * n == (1.0 - DAMPING) + DAMPING * idle
  {
    assert (1.0 - DAMPING) / n * n == 1.0 - DAMPING;
    assert (DAMPING * idle) / n * n == DAMPING * idle;
  }

  lemma {:induction false} SumIsPositive(paths: seq<Path>, f: Path -> real)
    requires forall p | p in paths :: f(p) >= 0.0
    ensures Sum(paths, f) >= 0.0
  {
    if paths != [] {
      SumIsPositive(paths[..|paths| - 1], f);
    }
  }

  /** From non-negative scores, every file gets at least the undamped share. */
  lemma ScoresHaveAFloor(paths: seq<Path>, edges: seq<Edge>, score: Path -> real, p: Path)
    requires paths != [] && forall q | q in paths :: score(q) >= 0.0
    ensures Next(paths, edges, score)(p) >= (1.0 - DAMPING) / |paths| as real
  {
    SumIsPositive(paths, Idle(paths, edges, score));
    forall q | q in Sources(paths, edges, p) ensures Sent(paths, edges, score)(q) >= 0.0 {
      SourcesSend(paths, edges, p, q);
    }
    SumIsPositive(Sources(paths, edges, p), Sent(paths, edges, score));
    assert DAMPING * Sum(paths, Idle(paths, edges, score)) / |paths| as real >= 0.0;
  }

  // ---------------------------------------------------------------- all iterations

  lemma FloorIsPositive(paths: seq<Path>)
    requires paths != []
    ensures (1.0 - DAMPING) / |paths| as real >= 0.0
  {}

  ghost function Initial(paths: seq<Path>): Path -> real
    requires paths != []
  {
    p => 1.0 / |paths| as real
  }

  /** The scores after `k` iterations. */
  ghost function Rank(paths: seq<Path>, edges: seq<Edge>, k: nat): Path -> real
    requires paths != []
    decreases k
  {
    if k == 0 then Initial(paths) else Next(paths, edges, Rank(paths, edges, k - 1))
  }

  /** After every iteration the scores sum to one, and after the first each has its floor. */
  lemma {:induction false} RankIsADistribution(paths: seq<Path>, edges: seq<Edge>, k: nat)
    requires Distinct(paths) && paths != []
    ensures Sum(paths, Rank(paths, edges, k)) == 1.0
    ensures forall p :: Rank(paths, edges, k)(p) >= if k == 0 then 0.0 else (1.0 - DAMPING) / |paths| as real
    decreases k
  {
    if k == 0 {
      SumConstant(paths, 1.0 / |paths| as real, Initial(paths));
    } else {
      hide Sum, Next;
      RankIsADistribution(paths, edges, k - 1);
      FloorIsPositive(paths);
      MassIsConserved(paths, edges, Rank(paths, edges, k - 1));
      forall p ensures Rank(paths, edges, k)(p) >= (1.0 - DAMPING) / |paths| as real {
        ScoresHaveAFloor(paths, edges, Rank(paths, edges, k - 1), p);
      }
    }
  }

  // ---------------------------------------------------------------- the computation

  ghost predicate OutDegrees(paths: seq<Path>, edges: seq<Edge>, out: map<Path, nat>)
  {
    forall p :: OutDegree(paths, edges, p) == if p in out then out[p] else 0
  }

  ghost predicate Incoming(paths: seq<Path>, edges: seq<Edge>, into: map<Path, seq<Path>>)
  {
    forall p :: Sources(paths, edges, p) == if p in into then into[p] else []
  }

  ghost predicate InDegrees(paths: seq<Path>, edges: seq<Edge>, inDegree: map<Path, nat>)
  {
    forall p :: |Sources(paths, edges, p)| == if p in inDegree then inDegree[p] else 0
  }

  lemma OutDegreesStep(paths: seq<Path>, edges: seq<Edge>, i: nat, out: map<Path, nat>)
    requires i < |edges| && OutDegrees(paths, edges[..i], out)
    ensures var e := edges[i];
      OutDegrees(paths, edges[..i + 1],
                 if Counts(paths, e) then out[e.src := (if e.src in out then out[e.src] else 0) + 1] else out)
  {
    assert edges[..i + 1][..i] == edges[..i];
  }

  lemma IncomingStep(paths: seq<Path>, edges: seq<Edge>, i: nat, into: map<Path, seq<Path>>)
    requires i < |edges| && Incoming(paths, edges[..i], into)
    ensures var e := edges[i];
      Incoming(paths, edges[..i + 1],
               if Counts(paths, e) then into[e.dst := (if e.dst in into then into[e.dst] else []) + [e.src]] else into)
  {
    assert edges[..i + 1][..i] == edges[..i];
  }

  lemma InDegreesStep(paths: seq<Path>, edges: seq<Edge>, i: nat, inDegree: map<Path, nat>)
    requires i < |edges| && InDegrees(paths, edges[..i], inDegree)
    ensures var e := edges[i];
      InDegrees(paths, edges[..i + 1],
                if Counts(paths, e)
                then inDegree[e.dst := (if e.dst in inDegree then inDegree[e.dst] else 0) + 1]
                else inDegree)
  {
    assert edges[..i + 1][..i] == edges[..i];
  }

  lemma NoDegrees(paths: seq<Path>, edges: seq<Edge>)
    ensures OutDegrees(paths, edges[..0], map[]) && Incoming(paths, edges[..0], map[]) &&
      InDegrees(paths, edges[..0], map[])
  {}

  /** Degrees and incoming sources of the counting edges. */
  method Degrees(paths: seq<Path>, edges: seq<Edge>)
    returns (out: map<Path, nat>, into: map<Path, seq<Path>>, inDegree: map<Path, nat>)
    ensures OutDegrees(paths, edges, out) && Incoming(paths, edges, into) && InDegrees(paths, edges, inDegree)
  {
    var nodes := set p | p in paths;
    out, into, inDegree := map[], map[], map[];
    hide OutDegree, Sources;
    assert OutDegrees(paths, edges[..0], out) && Incoming(paths, edges[..0], into) &&
      InDegrees(paths, edges[..0], inDegree) by {
      NoDegrees(paths, edges);
    }
    hide OutDegrees, Incoming, InDegrees;
    for i := 0 to |edges|
      invariant OutDegrees(paths, edges[..i], out) && Incoming(paths, edges[..i], into) &&
        InDegrees(paths, edges[..i], inDegree)
    {
      var e := edges[i];
      OutDegreesStep(paths, edges, i, out);
      IncomingStep(paths, edges, i, into);
      InDegreesStep(paths, edges, i, inDegree);
      if !(e.src == e.dst || e.src !in nodes || e.dst !in nodes) {
        out := out[e.src := (if e.src in out then out[e.src] else 0) + 1];
        into := into[e.dst := (if e.dst in into then into[e.dst] else []) + [e.src]];
        inDegree := inDegree[e.dst := (if e.dst in inDegree then inDegree[e.dst] else 0) + 1];
      }
    }
    assert edges[..|edges|] == edges;
  }

  /** The importance score of every file and its plain in-degree. Over distinct files
      the scores are the fortieth iterate, so they sum to one and have their floor. */
  method FileCentrality(paths: seq<Path>, edges: seq<Edge>) returns (score: map<Path, real>, inDegree: map<Path, nat>)
    ensures score.Keys == set p | p in paths
    ensures InDegrees(paths, edges, inDegree)
    ensures forall p | p in paths :: score[p] == Rank(paths, edges, ITERATIONS)(p)
    ensures Distinct(paths) && paths != [] ==>
      Sum(paths, Rank(paths, edges, ITERATIONS)) == 1.0 &&
      forall p | p in paths :: score[p] >= (1.0 - DAMPING) / |paths| as real
  {
    var out, into;
    out, into, inDegree := Degrees(paths, edges);
    score := map p | p in paths :: 1.0 / |paths| as real;
    if |paths| == 0 {
      return;
    }
    for k := 0 to ITERATIONS
      invariant score.Keys == set p | p in paths
      invariant forall p | p in paths :: score[p] == Rank(paths, edges, k)(p)
    {
      score := Iterate(paths, edges, out, into, score, Rank(paths, edges, k));
    }
    if Distinct(paths) {
      RankIsADistribution(paths, edges, ITERATIONS);
    }
  }

  /** One pass of the loop: the scores of every file from the scores before. */
  method Iterate(paths: seq<Path>, edges: seq<Edge>, out: map<Path, nat>, into: map<Path, seq<Path>>,
                 score: map<Path, real>, ghost before: Path -> real) returns (next: map<Path, real>)
    requires paths != [] && score.Keys == set p | p in paths
    requires OutDegrees(paths, edges, out) && Incoming(paths, edges, into)
    requires forall p | p in paths :: score[p] == before(p)
    ensures next.Keys == score.Keys
    ensures forall p | p in paths :: next[p] == Next(paths, edges, before)(p)
  {
    var dangling := DanglingMass(paths, edges, out, score, before);
    var base := (1.0 - DAMPING) / |paths| as real;
    var share := DAMPING * dangling / |paths| as real;
    next := Spread(paths, edges, out, into, score, before, base + share);
  }

  /** Every file's next score, from what all files share and what flows in. */
  method Spread(paths: seq<Path>, edges: seq<Edge>, out: map<Path, nat>, into: map<Path, seq<Path>>,
                score: map<Path, real>, ghost before: Path -> real, base: real) returns (next: map<Path, real>)
    requires paths != [] && score.Keys == set p | p in paths
    requires OutDegrees(paths, edges, out) && Incoming(paths, edges, into)
    requires forall p | p in paths :: score[p] == before(p)
    requires base == Base(paths, edges, before)
    ensures next.Keys == score.Keys
    ensures forall p | p in paths :: next[p] == Next(paths, edges, before)(p)
  {
    hide Sum, Sources, OutDegree, Sent, Idle, Base, OutDegrees, Incoming;
    next := map[];
    for i := 0 to |paths|
      invariant next.Keys == set p | p in paths[..i]
      invariant forall p | p in paths[..i] :: next[p] == Next(paths, edges, before)(p)
    {
      var p := paths[i];
      var sum := Gather(paths, edges, out, into, score, before, p);
      assert Inflows(paths, edges, Sent(paths, edges, before))(p) == sum;
      assert paths[..i + 1] == paths[..i] + [p];
      next := next[p := base + DAMPING * sum];
    }
    assert paths[..|paths|] == paths;
  }

  /** The mass held by files without dependencies. */
  method DanglingMass(paths: seq<Path>, edges: seq<Edge>, out: map<Path, nat>, score: map<Path, real>,
      ghost before: Path -> real)
    returns (dangling: real)
    requires score.Keys == set p | p in paths
    requires OutDegrees(paths, edges, out) && forall p | p in paths :: score[p] == before(p)
    ensures dangling == Sum(paths, Idle(paths, edges, before))
  {
    hide OutDegree;
    dangling := 0.0;
    ghost var idle := Idle(paths, edges, before);
    for i := 0 to |paths|
      invariant dangling == Sum(paths[..i], idle)
    {
      assert paths[..i + 1][..i] == paths[..i];
      if paths[i] !in out || out[paths[i]] == 0 {
        dangling := dangling + score[paths[i]];
      }
    }
    assert paths[..|paths|] == paths;
  }

  /** The damped shares of the files that depend on `p`. */
  method Gather(paths: seq<Path>, edges: seq<Edge>, out: map<Path, nat>, into: map<Path, seq<Path>>,
                score: map<Path, real>, ghost before: Path -> real, p: Path) returns (sum: real)
    requires score.Keys == set q | q in paths
    requires OutDegrees(paths, edges, out) && Incoming(paths, edges, into)
    requires forall q | q in paths :: score[q] == before(q)
    ensures sum == Inflow(paths, edges, Sent(paths, edges, before), p)
  {
    ghost var sent := Sent(paths, edges, before);
    sum := 0.0;
    var sources := if p in into then into[p] else [];
    assert sources == Sources(paths, edges, p);
    for j := 0 to |sources|
      invariant sum == Sum(sources[..j], sent)
    {
      assert sources[..j + 1][..j] == sources[..j];
      assert sources[j] in sources;
      SourcesSend(paths, edges, p, sources[j]);
      assert out[sources[j]] == OutDegree(paths, edges, sources[j]);
      sum := sum + score[sources[j]] / out[sources[j]] as real;
    }
    assert sources[..|sources|] == sources;
  }
}
