/** Which of the recorded cycles are reported, and when the reports cut every cycle. */
module CycleReports {
  import opened Strings
  import opened IncludeGraph
  import opened CycleSearch

  /** What stands between the names in a key. */
  const SEPARATOR := '>'

  /** The key by which a repeated cycle is recognized. */
  function Key(c: seq<Node>): string
  {
    Join(c, [SEPARATOR])
  }

  predicate HasKey(cycles: seq<seq<Node>>, key: string)
  {
    exists c :: c in cycles && Key(c) == key
  }

  /** The cycles of two or more files, the first of each key. */
  function Reported(cycles: seq<seq<Node>>): seq<seq<Node>>
  {
    if cycles == [] then []
    else
      var front, last := Reported(cycles[..|cycles| - 1]), cycles[|cycles| - 1];
      if |last| < 2 || HasKey(front, Key(last)) then front else front + [last]
  }

  /** Two recorded cycles through two or more files never share a key. */
  ghost predicate KeysTellApart(cycles: seq<seq<Node>>)
  {
    forall c, d | c in cycles && d in cycles && |c| >= 2 && |d| >= 2 && Key(c) == Key(d) :: c == d
  }

  lemma {:induction false} ReportedAre(cycles: seq<seq<Node>>, c: seq<Node>)
    ensures c in Reported(cycles) ==> c in cycles && |c| >= 2
    ensures c in cycles && |c| >= 2 ==> HasKey(Reported(cycles), Key(c))
  {
    hide Key;
    if cycles != [] {
      var front, last := cycles[..|cycles| - 1], cycles[|cycles| - 1];
      ReportedAre(front, c);
      assert cycles == front + [last];
      var before, after := Reported(front), Reported(cycles);
      assert forall d | d in before :: d in after;
      if c == last && |c| >= 2 && !HasKey(before, Key(last)) {
        assert after[|before|] == c;
      }
    }
  }

  lemma {:induction false} ReportedApart(cycles: seq<seq<Node>>, c: seq<Node>, d: seq<Node>)
    requires c in Reported(cycles) && d in Reported(cycles) && Key(c) == Key(d)
    ensures c == d
  {
    hide Key;
    var front := cycles[..|cycles| - 1];
    if c in Reported(front) && d in Reported(front) {
      ReportedApart(front, c, d);
    }
  }

  /** There is a report exactly when the includes are cyclic. */
  lemma ReportedIffCyclic(edges: seq<Edge>)
    ensures Reported(Recorded(edges)) != [] <==> exists c :: Cyclic(edges, c)
  {
    RecordedCycles(edges);
    hide Recorded, Reported, Without, Cyclic;
    var cycles := Recorded(edges);
    if Reported(cycles) != [] {
      var c := Reported(cycles)[0];
      ReportedAre(cycles, c);
      SimpleIsCyclic(edges, c);
    } else if c :| Cyclic(edges, c) {
      forall n, m ensures !Closes(cycles, n, m) {
        if Closes(cycles, n, m) {
          var d :| d in cycles && |d| >= 2 && d[|d| - 1] == n && d[0] == m;
          ReportedAre(cycles, d);
        }
      }
      assert Without(edges, []) == edges by { TakingNothing(edges); }
      FewerTakenAway(edges, cycles, [], c);
    }
  }

  lemma {:induction false} TakingNothing(edges: seq<Edge>)
    ensures Without(edges, []) == edges
  {
    if edges != [] {
      TakingNothing(edges[..|edges| - 1]);
    }
  }

  /** When keys tell the recorded cycles apart, all of them are reported. */
  lemma AllReported(edges: seq<Edge>, n: Node, m: Node)
    requires KeysTellApart(Recorded(edges)) && Closes(Recorded(edges), n, m)
    ensures Closes(Reported(Recorded(edges)), n, m)
  {
    hide Recorded, Reported, Key;
    var cycles := Recorded(edges);
    var c :| c in cycles && |c| >= 2 && c[|c| - 1] == n && c[0] == m;
    ReportedAre(cycles, c);
    var d :| d in Reported(cycles) && Key(d) == Key(c);
    ReportedAre(cycles, d);
  }

  /** A recorded cycle that is not reported stays whole when the edges that close the reported ones are taken away. */
  lemma UnreportedStays(edges: seq<Edge>, c: seq<Node>)
    requires c in Recorded(edges) && |c| >= 2 && c !in Reported(Recorded(edges))
    ensures Cyclic(Without(edges, Reported(Recorded(edges))), c)
  {
    RecordedCycles(edges);
    hide Recorded, Reported, Without, Cyclic;
    var cycles := Recorded(edges);
    var rest := Without(edges, Reported(cycles));
    forall n, m | Closes(Reported(cycles), n, m) ensures Closes(cycles, n, m) {
      var d :| d in Reported(cycles) && |d| >= 2 && d[|d| - 1] == n && d[0] == m;
      ReportedAre(cycles, d);
    }
    forall i | 0 <= i < |c| - 1 ensures Step(rest, c[i], c[i + 1]) {
      StepsWithout(edges, Reported(cycles), c[i], c[i + 1]);
    }
    if Closes(Reported(cycles), c[|c| - 1], c[0]) {
      var d :| d in Reported(cycles) && |d| >= 2 && d[|d| - 1] == c[|c| - 1] && d[0] == c[0];
      ReportedAre(cycles, d);
    }
    StepsWithout(edges, Reported(cycles), c[|c| - 1], c[0]);
    SimpleIsCyclic(rest, c);
  }

  /** Without the edges that close the reported cycles nothing is cyclic, exactly when keys tell the recorded cycles
      apart. */
  lemma ReportsCutExactly(edges: seq<Edge>)
    ensures (forall c :: !Cyclic(Without(edges, Reported(Recorded(edges))), c)) <==> KeysTellApart(Recorded(edges))
  {
    var cycles := Recorded(edges);
    if KeysTellApart(cycles) {
      RecordedCycles(edges);
      forall n, m | Closes(cycles, n, m) ensures Closes(Reported(cycles), n, m) {
        AllReported(edges, n, m);
      }
      forall c ensures !Cyclic(Without(edges, Reported(cycles)), c) {
        if Cyclic(Without(edges, Reported(cycles)), c) {
          FewerTakenAway(edges, cycles, Reported(cycles), c);
        }
      }
    } else {
      hide Recorded, Reported, Without, Cyclic, Key;
      var c, d :| c in cycles && d in cycles && |c| >= 2 && |d| >= 2 && Key(c) == Key(d) && c != d;
      if c in Reported(cycles) && d in Reported(cycles) {
        ReportedApart(cycles, c, d);
      } else if c in Reported(cycles) {
        UnreportedStays(edges, d);
      } else {
        UnreportedStays(edges, c);
      }
    }
  }

  // ---------------------------------------------------------------- names without the separator

  ghost predicate PlainNames(edges: seq<Edge>)
  {
    forall e | e in edges :: SEPARATOR !in e.src && SEPARATOR !in e.dst
  }

  ghost predicate PlainWalk(c: seq<Node>)
  {
    forall x | x in c :: SEPARATOR !in x
  }

  /** The first separator of a key is where its first name ends. */
  lemma KeyBegins(c: seq<Node>)
    requires c != [] && PlainWalk(c)
    ensures |c[0]| <= |Key(c)| && forall n | 0 <= n < |c[0]| :: Key(c)[n] != SEPARATOR
    ensures |c| == 1 ==> Key(c) == c[0]
    ensures |c| > 1 ==> |c[0]| < |Key(c)| && Key(c)[|c[0]|] == SEPARATOR
  {
    assert c[0] in c;
    forall n | 0 <= n < |c[0]| ensures Key(c)[n] != SEPARATOR {
      assert c[0][n] in c[0] && Key(c)[n] == c[0][n];
    }
  }

  /** Names without the separator can be read off the key. */
  lemma {:induction false} KeyIsInjective(c: seq<Node>, d: seq<Node>)
    requires c != [] && d != [] && Key(c) == Key(d) && PlainWalk(c) && PlainWalk(d)
    ensures c == d
    decreases |c|
  {
    var k := Key(c);
    KeyBegins(c);
    KeyBegins(d);
    assert |c[0]| == |d[0]|;
    if |c| > 1 {
      assert c[0] == k[..|c[0]|] == d[0];
      assert Key(c[1..]) == k[|c[0]| + 1..] == Key(d[1..]);
      assert forall x | x in c[1..] :: x in c;
      assert forall x | x in d[1..] :: x in d;
      KeyIsInjective(c[1..], d[1..]);
      assert c == [c[0]] + c[1..] && d == [d[0]] + d[1..];
    }
  }

  /** The files of a closed walk are ends of edges. */
  lemma WalkIsPlain(edges: seq<Edge>, c: seq<Node>)
    requires PlainNames(edges) && ClosedWalk(edges, c)
    ensures PlainWalk(c)
  {
    forall x | x in c ensures SEPARATOR !in x {
      var i :| 0 <= i < |c| && c[i] == x;
      assert Step(edges, c[i], if i < |c| - 1 then c[i + 1] else c[0]);
    }
  }

  /** A condition that can be checked beforehand: with plain names keys tell all cycles apart. */
  lemma PlainKeysTellApart(edges: seq<Edge>)
    requires PlainNames(edges)
    ensures KeysTellApart(Recorded(edges))
  {
    RecordedCycles(edges);
    hide Recorded, Key, PlainNames, PlainWalk;
    forall c, d | c in Recorded(edges) && d in Recorded(edges) && |c| >= 2 && |d| >= 2 && Key(c) == Key(d)
      ensures c == d {
      WalkIsPlain(edges, c);
      WalkIsPlain(edges, d);
      KeyIsInjective(c, d);
    }
  }

  // ---------------------------------------------------------------- two cycles of one key

  const A: Node := "a"
  const BC: Node := "b>c"
  const AB: Node := "a>b"
  const C: Node := "c"

  /** Two pairs of files that include each other. */
  function TwoPairs(): seq<Edge>
  {
    [Edge(A, BC), Edge(BC, A), Edge(AB, C), Edge(C, AB)]
  }

  ghost predicate Pair(edges: seq<Edge>, x: Node, y: Node)
  {
    x != y && Targets(edges, x) == [y] && Targets(edges, y) == [x]
  }

  /** Below one of a pair, the other closes the pair. */
  lemma SecondOfPair(edges: seq<Edge>, s: State, x: Node, y: Node)
    requires Pair(edges, x, y) && x in Nodes(edges) && y in Nodes(edges) && s.stack == [x] && !Visited(s, y)
    ensures Visit(edges, s, y) == State([x], s.order + [y], s.cycles + [[x, y]])
  {
    hide Nodes, Targets, Visit;
    VisitSingle(edges, s, y, x);
    var entered := s.(stack := s.stack + [y]);
    FollowSingle(edges, entered, x);
    assert entered.stack == [x, y] && From([x, y], x) == [x, y];
  }

  /** Searching from one of a pair records the pair. */
  lemma PairIsRecorded(edges: seq<Edge>, s: State, x: Node, y: Node)
    requires Pair(edges, x, y) && x in Nodes(edges) && y in Nodes(edges)
    requires s.stack == [] && !Visited(s, x) && !Visited(s, y)
    ensures Visit(edges, s, x) == State([], s.order + [y, x], s.cycles + [[x, y]])
  {
    hide Nodes, Targets, Visit;
    VisitSingle(edges, s, x, y);
    var entered := s.(stack := s.stack + [x]);
    FollowSingle(edges, entered, y);
    assert entered.stack == [x];
    SecondOfPair(edges, entered, x, y);
    assert s.order + [y] + [x] == s.order + [y, x];
  }

  lemma FollowSingle(edges: seq<Edge>, s: State, m: Node)
    requires m in Nodes(edges)
    ensures Follow(edges, s, [m]) == FollowOne(edges, s, m)
  {
    hide FollowOne;
    assert [m][1..] == [];
  }

  lemma VisitSingle(edges: seq<Edge>, s: State, n: Node, m: Node)
    requires n in Nodes(edges) && m in Nodes(edges) && !Visited(s, n) && Targets(edges, n) == [m]
    ensures var entered := s.(stack := s.stack + [n]);
      Visit(edges, s, n) == Follow(edges, entered, [m]).(stack := s.stack,
        order := Follow(edges, entered, [m]).order + [n])
  {
    hide Follow;
  }

  lemma TwoPairsEdges()
    ensures Pair(TwoPairs(), A, BC) && Pair(TwoPairs(), AB, C)
    ensures {A, BC, AB, C} <= Nodes(TwoPairs())
    ensures Sources(TwoPairs()) == [A, AB, BC, C]
  {
    var edges := TwoPairs();
    FourTargets();
    FourNodes();
    FourSources();
    FourSorted();
    hide TwoPairs, Sources, Nodes, Targets;
    AscendingIsUnique(Sources(edges), [A, AB, BC, C]);
  }

  lemma FourNodes()
    ensures {A, BC, AB, C} <= Nodes(TwoPairs())
  {
    var edges := TwoPairs();
    assert edges[0] in edges && edges[1] in edges && edges[2] in edges && edges[3] in edges;
  }

  lemma FourSources()
    ensures forall n :: n in Sources(TwoPairs()) <==> n in [A, AB, BC, C]
  {
    hide Sources;
    var edges := TwoPairs();
    assert edges[0] in edges && edges[1] in edges && edges[2] in edges && edges[3] in edges;
    assert forall e | e in edges :: e.src in [A, AB, BC, C];
  }

  lemma FourSorted()
    ensures Ascending([A, AB, BC, C])
  {
    var s: seq<string> := [A, AB, BC, C];
    assert s[1][1..] == ">b" && s[0][1..] == "";
    assert Less(s[0], s[1]);
  }

  lemma FourTargets()
    ensures Targets(TwoPairs(), A) == [BC] && Targets(TwoPairs(), BC) == [A]
    ensures Targets(TwoPairs(), AB) == [C] && Targets(TwoPairs(), C) == [AB]
  {
    var edges := TwoPairs();
    var three, two, one := edges[..3], edges[..2], edges[..1];
    assert three[..2] == two && two[..1] == one && one[..0] == [];
    assert three[2] == edges[2] && two[1] == edges[1] && one[0] == edges[0];
    forall n ensures Targets(one, n) == if n == A then [BC] else [] {}
    forall n ensures Targets(two, n) == Targets(one, n) + if n == BC then [A] else [] {}
    forall n ensures Targets(three, n) == Targets(two, n) + if n == AB then [C] else [] {}
    forall n ensures Targets(edges, n) == Targets(three, n) + if n == C then [AB] else [] {}
  }

  lemma RestIsIn(a: seq<string>, b: seq<string>)
    requires Ascending(a) && a != [] && b != [] && a[0] == b[0] && forall x | x in a :: x in b
    ensures forall x | x in a[1..] :: x in b[1..]
  {
    forall x | x in a[1..] ensures x in b[1..] {
      var i :| 0 <= i < |a[1..]| && a[1..][i] == x;
      assert Less(a[0], a[i + 1]) && a[i + 1] in a;
      LessTotal(x, x);
      var j :| 0 <= j < |b| && b[j] == x;
      assert b[1..][j - 1] == x;
    }
  }

  lemma {:induction false} AscendingIsUnique(a: seq<string>, b: seq<string>)
    requires Ascending(a) && Ascending(b) && forall x :: x in a <==> x in b
    ensures a == b
  {
    assert (a != [] ==> a[0] in a) && (b != [] ==> b[0] in b);
    if a != [] {
      LessTotal(a[0], b[0]);
      assert a[0] == b[0];
      RestIsIn(a, b);
      RestIsIn(b, a);
      AscendingIsUnique(a[1..], b[1..]);
      assert a == [a[0]] + a[1..] && b == [b[0]] + b[1..];
    }
  }

  /** Two pairs without edges between them are recorded one after the other. */
  lemma PairsAreRecorded(edges: seq<Edge>, w: Node, x: Node, y: Node, z: Node)
    requires Pair(edges, w, x) && Pair(edges, y, z) && {w, x, y, z} <= Nodes(edges) && y !in {w, x} && z !in {w, x}
    requires Sources(edges) == [w, y, x, z]
    ensures Recorded(edges) == [[w, x], [y, z]]
  {
    hide Sources, Nodes, Targets, Visit, Pair;
    var nodes := [w, y, x, z];
    assert nodes[..3] == [w, y, x] && nodes[..3][..2] == [w, y] && nodes[..3][..2][..1] == [w] && [w][..0] == [];
    PairIsRecorded(edges, State([], [], []), w, x);
    var one := State([], [x, w], [[w, x]]);
    assert SearchAll(edges, [w]) == one;
    PairIsRecorded(edges, one, y, z);
    var two := State([], [x, w, z, y], [[w, x], [y, z]]);
    assert SearchAll(edges, [w, y]) == two;
    assert SearchAll(edges, [w, y, x]) == two;
    assert SearchAll(edges, nodes) == two;
  }

  /** Of two recorded cycles with one key only the first is reported, and the second stays whole. */
  lemma SecondIsDropped(edges: seq<Edge>, c: seq<Node>, d: seq<Node>)
    requires Recorded(edges) == [c, d] && |c| >= 2 && |d| >= 2 && c != d && Key(c) == Key(d)
    ensures Reported(Recorded(edges)) == [c] && Cyclic(Without(edges, Reported(Recorded(edges))), d)
  {
    hide Key, Recorded;
    assert [c, d][..1] == [c] && [c][..0] == [] && [c][0] == c && [c, d][1] == d;
    assert Reported([]) == [];
    assert Reported([c]) == [c];
    assert c in [c];
    assert Reported([c, d]) == [c];
    hide Reported;
    assert d !in [c];
    UnreportedStays(edges, d);
  }

  /** The two pairs are recorded and share a key: the second is not reported, and stays when the edge that closes the
      first is taken away. */
  lemma TwoPairsStayCyclic()
    ensures Recorded(TwoPairs()) == [[A, BC], [AB, C]] && Key([A, BC]) == Key([AB, C])
    ensures Reported(Recorded(TwoPairs())) == [[A, BC]]
    ensures Cyclic(Without(TwoPairs(), Reported(Recorded(TwoPairs()))), [AB, C])
  {
    TwoPairsEdges();
    OneKey();
    hide *;
    PairsAreRecorded(TwoPairs(), A, BC, AB, C);
    SecondIsDropped(TwoPairs(), [A, BC], [AB, C]);
  }

  lemma OneKey()
    ensures Key([A, BC]) == Key([AB, C]) && [A, BC] != [AB, C] && A !in {AB, C} && BC !in {AB, C}
  {
    PairKey(A, BC);
    PairKey(AB, C);
    hide Key;
    assert A + [SEPARATOR] + BC == "a>b>c" == AB + [SEPARATOR] + C;
    assert [A, BC][0] != [AB, C][0];
    assert |A| != |AB| && |BC| != |C| && BC[0] != AB[0] && A[0] != C[0];
  }

  lemma PairKey(x: Node, y: Node)
    ensures Key([x, y]) == x + [SEPARATOR] + y
  {
    var c := [x, y];
    assert c[1..] == [y] && Key([y]) == y;
    assert Key(c) == c[0] + [SEPARATOR] + Key(c[1..]);
  }
}
