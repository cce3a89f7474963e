/** Merging ranked lists of hits: reciprocal rank fusion, and recall of documentation hits below the read window. */
module Fusion {
  import opened StableSort
  import opened Strings

  datatype Hit = Hit(file: string, startLine: int, snippet: string)

  function Itoa(n: int): string
  {
    if n < 0 then "-" + Decimal(-n) else Decimal(n)
  }

  function Key(h: Hit): string
  {
    h.file + ":" + Itoa(h.startLine)
  }

  function Keys(hits: seq<Hit>): seq<string>
  {
    seq(|hits|, i requires 0 <= i < |hits| => Key(hits[i]))
  }

  lemma KeysAppend(a: seq<Hit>, b: seq<Hit>)
    ensures Keys(a + b) == Keys(a) + Keys(b)
  {
    hide Key;
  }

  ghost predicate DistinctKeys(hits: seq<Hit>)
  {
    forall i, j | 0 <= i < j < |hits| :: Key(hits[i]) != Key(hits[j])
  }

  // ---------------------------------------------------------------- scores

  /** What the hit at a rank, counted from zero, contributes. */
  function Share(rank: nat): (r: real)
    ensures r > 0.0
  {
    1.0 / (61.0 + rank as real)
  }

  /** A key's score in one list. */
  function ListScore(list: seq<Hit>, key: string): (r: real)
    ensures r >= 0.0
  {
    if list == [] then 0.0
    else ListScore(list[..|list| - 1], key) + if Key(list[|list| - 1]) == key then Share(|list| - 1) else 0.0
  }

  function Score(lists: seq<seq<Hit>>, key: string): (r: real)
    ensures r >= 0.0
  {
    if lists == [] then 0.0 else Score(lists[..|lists| - 1], key) + ListScore(lists[|lists| - 1], key)
  }

  lemma SharesFall(a: nat, b: nat)
    requires a < b
    ensures Share(a) > Share(b)
  {
    var x, y := 61.0 + a as real, 61.0 + b as real;
    assert x * Share(a) == 1.0 && y * Share(b) == 1.0;
    if Share(a) <= Share(b) {
      TimesIsStrict(x, y, Share(a), Share(b));
    }
  }

  lemma TimesIsStrict(x: real, y: real, s: real, t: real)
    requires 0.0 < x < y && 0.0 < s <= t
    ensures x * s < y * t
  {
    assert y * t - x * s == y * (t - s) + (y - x) * s;
  }

  lemma {:induction false} AbsentScoresNothing(list: seq<Hit>, key: string)
    requires key !in Keys(list)
    ensures ListScore(list, key) == 0.0
  {
    if list != [] {
      var front := list[..|list| - 1];
      assert Key(list[|list| - 1]) == Keys(list)[|list| - 1];
      assert forall k | k in Keys(front) :: k in Keys(list) by {
        assert Keys(front) == Keys(list)[..|list| - 1];
      }
      AbsentScoresNothing(front, key);
    }
  }

  /** A hit that occurs once scores its share. */
  lemma {:induction false} OneOccurrenceScores(list: seq<Hit>, i: nat)
    requires DistinctKeys(list) && i < |list|
    ensures ListScore(list, Key(list[i])) == Share(i)
    decreases |list|
  {
    hide Share, Key;
    var front := list[..|list| - 1];
    if i < |front| {
      OneOccurrenceScores(front, i);
    } else {
      AbsentScoresNothing(front, Key(list[i]));
    }
  }

  /** A hit scores at least its share. */
  lemma {:induction false} OccurrenceScores(list: seq<Hit>, i: nat)
    requires i < |list|
    ensures ListScore(list, Key(list[i])) >= Share(i)
    decreases |list|
  {
    if i < |list| - 1 {
      OccurrenceScores(list[..|list| - 1], i);
    }
  }

  /** If the list has `b`, `a` stands before it. */
  ghost predicate AgreesIn(list: seq<Hit>, a: string, b: string)
  {
    forall j | 0 <= j < |list| && Key(list[j]) == b :: exists i :: 0 <= i < j && Key(list[i]) == a
  }

  /** `a` stands before `b` in every list that has `b`. */
  ghost predicate Agreed(lists: seq<seq<Hit>>, a: string, b: string)
  {
    forall l | 0 <= l < |lists| :: AgreesIn(lists[l], a, b)
  }

  ghost predicate Listed(lists: seq<seq<Hit>>, key: string)
  {
    exists l :: 0 <= l < |lists| && key in Keys(lists[l])
  }

  lemma ListAgrees(list: seq<Hit>, a: string, b: string)
    requires DistinctKeys(list) && AgreesIn(list, a, b)
    ensures ListScore(list, a) >= ListScore(list, b)
    ensures b in Keys(list) ==> ListScore(list, a) > ListScore(list, b)
  {
    if b in Keys(list) {
      var j: nat :| j < |list| && Keys(list)[j] == b;
      var i: nat :| i < j && Key(list[i]) == a;
      OccurrenceScores(list, i);
      OneOccurrenceScores(list, j);
      SharesFall(i, j);
    } else {
      AbsentScoresNothing(list, b);
    }
  }

  /** Agreement is rewarded: whatever stands first in every list that has the other scores more. */
  lemma {:induction false} AgreementScoresMore(lists: seq<seq<Hit>>, a: string, b: string)
    requires (forall l | 0 <= l < |lists| :: DistinctKeys(lists[l])) && Agreed(lists, a, b)
    ensures Score(lists, a) >= Score(lists, b)
    ensures Listed(lists, b) ==> Score(lists, a) > Score(lists, b)
  {
    if lists != [] {
      hide AgreesIn, DistinctKeys, ListScore, Keys, Listed;
      var front, last := lists[..|lists| - 1], lists[|lists| - 1];
      ListedSplits(lists, b);
      assert forall l | 0 <= l < |front| :: front[l] == lists[l];
      AgreementScoresMore(front, a, b);
      ListAgrees(last, a, b);
    } else {
      assert !Listed(lists, b);
    }
  }

  lemma ListedSplits(lists: seq<seq<Hit>>, key: string)
    requires lists != []
    ensures Listed(lists, key) <==> Listed(lists[..|lists| - 1], key) || key in Keys(lists[|lists| - 1])
  {
    hide Keys;
    var front := lists[..|lists| - 1];
    if Listed(lists, key) && key !in Keys(lists[|lists| - 1]) {
      var l :| 0 <= l < |lists| && key in Keys(lists[l]);
      assert lists[l] == front[l];
    }
    if Listed(front, key) {
      var l :| 0 <= l < |front| && key in Keys(front[l]);
      assert lists[l] == front[l];
    }
  }

  // ---------------------------------------------------------------- first occurrences

  /** The first hit of every key that is not among those already seen. */
  function Firsts(seen: set<string>, hits: seq<Hit>): seq<Hit>
  {
    if hits == [] then []
    else
      var front, h := Firsts(seen, hits[..|hits| - 1]), hits[|hits| - 1];
      if Key(h) in seen || Key(h) in Keys(front) then front else front + [h]
  }

  lemma {:induction false} FirstsAreFirst(seen: set<string>, hits: seq<Hit>)
    ensures DistinctKeys(Firsts(seen, hits))
    ensures forall key :: key in Keys(Firsts(seen, hits)) <==> key in Keys(hits) && key !in seen
  {
    if hits != [] {
      var before, h := hits[..|hits| - 1], hits[|hits| - 1];
      FirstsAreFirst(seen, before);
      var front := Firsts(seen, before);
      assert hits == before + [h];
      KeysAppend(before, [h]);
      KeysAppend(front, [h]);
      assert forall i | 0 <= i < |front| :: Keys(front)[i] == Key(front[i]);
      assert Keys([h]) == [Key(h)];
      hide Key;
    }
  }

  function Flat(lists: seq<seq<Hit>>): seq<Hit>
  {
    if lists == [] then [] else Flat(lists[..|lists| - 1]) + lists[|lists| - 1]
  }

  lemma {:induction false} FlatHasListed(lists: seq<seq<Hit>>, key: string)
    ensures key in Keys(Flat(lists)) <==> Listed(lists, key)
  {
    if lists != [] {
      var front, last := lists[..|lists| - 1], lists[|lists| - 1];
      FlatHasListed(front, key);
      ListedSplits(lists, key);
      KeysAppend(Flat(front), last);
      hide Keys, Listed;
    } else {
      assert Flat(lists) == [];
    }
  }

  // ---------------------------------------------------------------- fusion

  ghost function ScoreOrder(lists: seq<seq<Hit>>): (string, string) -> bool
  {
    (a, b) => Score(lists, a) > Score(lists, b)
  }

  /** The keys of all lists by falling score, tied keys as they were first seen. */
  ghost predicate Ranked(lists: seq<seq<Hit>>, ranking: seq<string>, perm: seq<nat>)
  {
    StablySorted(Keys(Firsts({}, Flat(lists))), ScoreOrder(lists), ranking, perm)
  }

  /** What every list that has `b` puts before it stands before it in the fused ranking. */
  lemma FusionRespectsAgreement(lists: seq<seq<Hit>>, ranking: seq<string>, perm: seq<nat>, a: string, b: string)
    requires (forall l | 0 <= l < |lists| :: DistinctKeys(lists[l])) && Ranked(lists, ranking, perm)
    requires Agreed(lists, a, b) && Listed(lists, b)
    ensures exists i, j :: 0 <= i < j < |ranking| && ranking[i] == a && ranking[j] == b
    ensures forall i, j | 0 <= i < |ranking| && 0 <= j < |ranking| && ranking[i] == a && ranking[j] == b :: i < j
  {
    hide Score, Agreed, Listed, DistinctKeys, AgreesIn, Ranked, Keys;
    AgreementScoresMore(lists, a, b);
    AgreedIsListed(lists, a, b);
    ListedIsRanked(lists, ranking, perm, a);
    ListedIsRanked(lists, ranking, perm, b);
    forall i, j | 0 <= i < |ranking| && 0 <= j < |ranking| && ranking[i] == a && ranking[j] == b ensures i < j {
      if j < i {
        PrecedesByScore(lists, ranking, perm, j, i);
      }
    }
  }

  lemma ListedIsRanked(lists: seq<seq<Hit>>, ranking: seq<string>, perm: seq<nat>, key: string)
    requires Ranked(lists, ranking, perm)
    ensures key in ranking <==> Listed(lists, key)
  {
    hide StablySorted, Keys, Listed;
    FlatHasListed(lists, key);
    FirstsAreFirst({}, Flat(lists));
    SortedKeepsElements(Keys(Firsts({}, Flat(lists))), ScoreOrder(lists), ranking, perm);
  }

  lemma PrecedesByScore(lists: seq<seq<Hit>>, ranking: seq<string>, perm: seq<nat>, i: nat, j: nat)
    requires Ranked(lists, ranking, perm) && i < j < |ranking|
    ensures Score(lists, ranking[i]) >= Score(lists, ranking[j])
  {
    hide Score, Permutation;
    assert MayPrecede(ScoreOrder(lists), ranking[i], perm[i], ranking[j], perm[j]);
  }

  lemma AgreedIsListed(lists: seq<seq<Hit>>, a: string, b: string)
    requires Agreed(lists, a, b) && Listed(lists, b)
    ensures Listed(lists, a)
  {
    var l :| 0 <= l < |lists| && b in Keys(lists[l]);
    var j :| 0 <= j < |lists[l]| && Keys(lists[l])[j] == b;
    assert AgreesIn(lists[l], a, b);
    var i :| 0 <= i < j && Key(lists[l][i]) == a;
    assert Keys(lists[l])[i] == a;
  }

  /** What is known of a key: its first hit and its score so far. */
  datatype Tally = Tally(hit: Hit, score: real)

  function ScoreIn(m: map<string, Tally>, key: string): real
  {
    if key in m then m[key].score else 0.0
  }

  function TallyOrder(m: map<string, Tally>): (string, string) -> bool
  {
    (a, b) => ScoreIn(m, a) > ScoreIn(m, b)
  }

  ghost predicate Within(lists: seq<seq<Hit>>, l: nat, n: nat)
  {
    l <= |lists| && n <= if l < |lists| then |lists[l]| else 0
  }

  /** The hits of the lists before `lists[l]` and the first `n` of that list. */
  ghost function Passed(lists: seq<seq<Hit>>, l: nat, n: nat): seq<Hit>
    requires Within(lists, l, n)
  {
    Flat(lists[..l]) + if l < |lists| then lists[l][..n] else []
  }

  /** What these hits have scored for a key. */
  ghost function Counted(lists: seq<seq<Hit>>, l: nat, n: nat, key: string): real
    requires Within(lists, l, n)
  {
    Score(lists[..l], key) + if l < |lists| then ListScore(lists[l][..n], key) else 0.0
  }

  /** The map knows exactly the keys of these hits, and their first hits. */
  ghost predicate Known(m: map<string, Tally>, firsts: seq<Hit>)
  {
    (forall key :: key in m <==> key in Keys(firsts)) &&
    forall i | 0 <= i < |firsts| :: Key(firsts[i]) in m && m[Key(firsts[i])].hit == firsts[i]
  }

  ghost predicate ScoresAre(m: map<string, Tally>, lists: seq<seq<Hit>>, l: nat, n: nat)
    requires Within(lists, l, n)
  {
    forall key | key in m :: m[key].score == Counted(lists, l, n, key)
  }

  /** The map holds, for every key passed, its first hit and what it has scored so far. */
  ghost predicate Tallied(m: map<string, Tally>, lists: seq<seq<Hit>>, l: nat, n: nat)
    requires Within(lists, l, n)
  {
    Known(m, Firsts({}, Passed(lists, l, n))) && ScoresAre(m, lists, l, n)
  }

  lemma {:induction false} UnlistedScoresNothing(lists: seq<seq<Hit>>, key: string)
    requires key !in Keys(Flat(lists))
    ensures Score(lists, key) == 0.0
  {
    if lists != [] {
      var front, last := lists[..|lists| - 1], lists[|lists| - 1];
      KeysAppend(Flat(front), last);
      UnlistedScoresNothing(front, key);
      AbsentScoresNothing(last, key);
    }
  }

  /** Counting one more hit. */
  function Add(m: map<string, Tally>, h: Hit, rank: nat): map<string, Tally>
  {
    m[Key(h) := if Key(h) in m then m[Key(h)].(score := m[Key(h)].score + Share(rank)) else Tally(h, Share(rank))]
  }

  lemma PassedNext(lists: seq<seq<Hit>>, l: nat, n: nat)
    requires l < |lists| && n < |lists[l]|
    ensures Passed(lists, l, n + 1) == Passed(lists, l, n) + [lists[l][n]]
    ensures forall key ::
      Counted(lists, l, n + 1, key) == Counted(lists, l, n, key) + if Key(lists[l][n]) == key then Share(n) else 0.0
  {
    hide Flat, Score, Key, Share;
    assert lists[l][..n + 1][..n] == lists[l][..n];
  }

  lemma FirstsNext(hits: seq<Hit>, h: Hit)
    ensures Firsts({}, hits + [h]) == Firsts({}, hits) + if Key(h) in Keys(Firsts({}, hits)) then [] else [h]
  {
    hide Key, Keys;
    assert (hits + [h])[..|hits|] == hits;
  }

  lemma UnseenScoresNothing(lists: seq<seq<Hit>>, l: nat, n: nat, key: string)
    requires Within(lists, l, n) && key !in Keys(Firsts({}, Passed(lists, l, n)))
    ensures Counted(lists, l, n, key) == 0.0
  {
    FirstsAreFirst({}, Passed(lists, l, n));
    var more := if l < |lists| then lists[l][..n] else [];
    KeysAppend(Flat(lists[..l]), more);
    UnlistedScoresNothing(lists[..l], key);
    AbsentScoresNothing(more, key);
  }

  lemma AddKeepsTally(m: map<string, Tally>, lists: seq<seq<Hit>>, l: nat, n: nat)
    requires l < |lists| && n < |lists[l]| && Tallied(m, lists, l, n)
    ensures Tallied(Add(m, lists[l][n], n), lists, l, n + 1)
  {
    hide Firsts, Passed, Key, Share, Keys, Counted, ScoresAre, DistinctKeys, Add;
    var h := lists[l][n];
    var firsts := Firsts({}, Passed(lists, l, n));
    PassedNext(lists, l, n);
    FirstsNext(Passed(lists, l, n), h);
    FirstsAreFirst({}, Passed(lists, l, n));
    AddKeepsScores(m, lists, l, n);
    AddKeepsKnown(m, firsts, h, n);
    hide Known;
  }

  lemma AddKeepsScores(m: map<string, Tally>, lists: seq<seq<Hit>>, l: nat, n: nat)
    requires l < |lists| && n < |lists[l]| && Tallied(m, lists, l, n)
    ensures ScoresAre(Add(m, lists[l][n], n), lists, l, n + 1)
  {
    hide Firsts, Passed, Key, Share, Keys, Counted;
    PassedNext(lists, l, n);
    if Key(lists[l][n]) !in m {
      UnseenScoresNothing(lists, l, n, Key(lists[l][n]));
    }
    hide Known;
  }

  lemma AddKeepsKnown(m: map<string, Tally>, firsts: seq<Hit>, h: Hit, rank: nat)
    requires Known(m, firsts) && DistinctKeys(firsts)
    ensures Known(Add(m, h, rank), firsts + if Key(h) in Keys(firsts) then [] else [h])
  {
    hide Share;
    KeysAppend(firsts, [h]);
    assert Keys([h]) == [Key(h)];
    hide Key;
    assert firsts + [] == firsts;
  }

  lemma NextList(m: map<string, Tally>, lists: seq<seq<Hit>>, l: nat)
    requires l < |lists|
    ensures Passed(lists, l + 1, 0) == Passed(lists, l, |lists[l]|)
    ensures Tallied(m, lists, l, |lists[l]|) ==> Tallied(m, lists, l + 1, 0)
  {
    assert lists[..l + 1][..l] == lists[..l] && lists[l][..|lists[l]|] == lists[l];
    hide Firsts, Known, Key;
    assert Passed(lists, l + 1, 0) == Passed(lists, l, |lists[l]|);
    hide Passed;
    if l + 1 < |lists| {
      assert lists[l + 1][..0] == [];
    }
    assert forall key :: Counted(lists, l + 1, 0, key) == Counted(lists, l, |lists[l]|, key);
  }

  /** The hits of a fused ranking, as many as asked for. */
  ghost predicate Fused(lists: seq<seq<Hit>>, ranking: seq<string>, limit: nat, out: seq<Hit>)
  {
    |out| == (if limit < |ranking| then limit else |ranking|) &&
    forall i | 0 <= i < |out| :: out[i] in Firsts({}, Flat(lists)) && Key(out[i]) == ranking[i]
  }

  /** The map holds the first hit and the score of every listed key. */
  ghost predicate AllTallied(m: map<string, Tally>, lists: seq<seq<Hit>>)
  {
    Known(m, Firsts({}, Flat(lists))) && forall key | key in m :: m[key].score == Score(lists, key)
  }

  lemma TallyEnds(m: map<string, Tally>, lists: seq<seq<Hit>>)
    requires Tallied(m, lists, |lists|, 0)
    ensures AllTallied(m, lists) && Passed(lists, |lists|, 0) == Flat(lists)
  {
    hide Firsts, Known, Score, Flat;
    assert lists[..|lists|] == lists;
    assert Flat(lists) + [] == Flat(lists);
    assert forall key :: Counted(lists, |lists|, 0, key) == Score(lists, key);
  }

  lemma TallyKnows(m: map<string, Tally>, lists: seq<seq<Hit>>, l: nat, n: nat, key: string)
    requires Within(lists, l, n) && Tallied(m, lists, l, n)
    ensures key in m <==> key in Keys(Firsts({}, Passed(lists, l, n)))
  {
    hide Firsts, Passed, Keys;
  }

  /** One more hit in the order of first sight. */
  lemma OrderNext(m: map<string, Tally>, lists: seq<seq<Hit>>, l: nat, n: nat)
    requires l < |lists| && n < |lists[l]| && Tallied(m, lists, l, n)
    ensures Keys(Firsts({}, Passed(lists, l, n + 1))) ==
      Keys(Firsts({}, Passed(lists, l, n))) + if Key(lists[l][n]) in m then [] else [Key(lists[l][n])]
  {
    var h := lists[l][n];
    TallyKnows(m, lists, l, n, Key(h));
    PassedNext(lists, l, n);
    FirstsNext(Passed(lists, l, n), h);
    KeysAppend(Firsts({}, Passed(lists, l, n)), [h]);
    assert Keys([h]) == [Key(h)];
    hide *;
    assert Firsts({}, Passed(lists, l, n)) + [] == Firsts({}, Passed(lists, l, n));
  }

  /** Sums the scores of all keys, noting the order in which they are first seen. */
  method TallyAll(lists: seq<seq<Hit>>) returns (m: map<string, Tally>, order: seq<string>)
    ensures AllTallied(m, lists) && order == Keys(Firsts({}, Flat(lists)))
  {
    m, order := map[], [];
    for l := 0 to |lists|
      invariant Tallied(m, lists, l, 0) && order == Keys(Firsts({}, Passed(lists, l, 0)))
    {
      hide Passed, Firsts, Key, Keys, Share, Tallied;
      for n := 0 to |lists[l]|
        invariant Tallied(m, lists, l, n) && order == Keys(Firsts({}, Passed(lists, l, n)))
      {
        var h := lists[l][n];
        OrderNext(m, lists, l, n);
        AddKeepsTally(m, lists, l, n);
        if Key(h) !in m {
          order := order + [Key(h)];
        }
        m := Add(m, h, n);
      }
      NextList(m, lists, l);
    }
    hide Tallied, AllTallied, Passed, Firsts, Keys;
    TallyEnds(m, lists);
  }

  /** The output is a fused ranking of the lists, cut to the limit. */
  ghost predicate FusionOf(lists: seq<seq<Hit>>, limit: nat, out: seq<Hit>)
  {
    exists ranking, perm :: Ranked(lists, ranking, perm) && Fused(lists, ranking, limit, out)
  }

  /** Reciprocal rank fusion: scores are summed over the lists, and the order is by score, ties as first seen. */
  method FuseRRF(limit: nat, lists: seq<seq<Hit>>) returns (out: seq<Hit>)
    ensures FusionOf(lists, limit, out)
  {
    var m, order := TallyAll(lists);
    var ranking := Sort(order, TallyOrder(m));
    ghost var perm :| StablySorted(order, TallyOrder(m), ranking, perm);
    hide *;
    SameOrder(m, lists, ranking, perm);
    out := TakeHits(m, lists, ranking, perm, limit);
    FusionFound(lists, limit, out, ranking, perm);
  }

  lemma FusionFound(lists: seq<seq<Hit>>, limit: nat, out: seq<Hit>, ranking: seq<string>, perm: seq<nat>)
    requires Ranked(lists, ranking, perm) && Fused(lists, ranking, limit, out)
    ensures FusionOf(lists, limit, out)
  {}

  /** In the output of the fusion, too: what every list that has `b` puts before it stands before it. */
  lemma OutputRespectsAgreement(lists: seq<seq<Hit>>, limit: nat, out: seq<Hit>, a: string, j: nat)
    requires FusionOf(lists, limit, out) && (forall l | 0 <= l < |lists| :: DistinctKeys(lists[l]))
    requires j < |out| && Agreed(lists, a, Key(out[j]))
    ensures exists i :: 0 <= i < j && Key(out[i]) == a
  {
    hide Ranked, Agreed, DistinctKeys, Listed, Key, Firsts, Flat;
    var ranking, perm :| Ranked(lists, ranking, perm) && Fused(lists, ranking, limit, out);
    ListedIsRanked(lists, ranking, perm, Key(out[j]));
    FusionRespectsAgreement(lists, ranking, perm, a, Key(out[j]));
    var i :| 0 <= i < |ranking| && ranking[i] == a;
    assert i < j;
  }

  /** The hits of the first keys of a ranking. */
  method TakeHits(m: map<string, Tally>, lists: seq<seq<Hit>>, sorted: seq<string>, ghost perm: seq<nat>, limit: nat)
    returns (out: seq<Hit>)
    requires AllTallied(m, lists) && Ranked(lists, sorted, perm)
    ensures Fused(lists, sorted, limit, out)
  {
    hide Ranked, AllTallied, Firsts, Flat, Key;
    out := [];
    while |out| < |sorted| && |out| < limit
      invariant |out| <= |sorted| && |out| <= limit
      invariant forall i | 0 <= i < |out| :: out[i] in Firsts({}, Flat(lists)) && Key(out[i]) == sorted[i]
    {
      RankedIsKnown(m, lists, sorted, perm, |out|);
      out := out + [m[sorted[|out|]].hit];
    }
  }

  /** Sorting by the tallied scores sorts by the scores. */
  lemma SameOrder(m: map<string, Tally>, lists: seq<seq<Hit>>, ranking: seq<string>, perm: seq<nat>)
    requires AllTallied(m, lists) && StablySorted(Keys(Firsts({}, Flat(lists))), TallyOrder(m), ranking, perm)
    ensures Ranked(lists, ranking, perm)
  {
    hide Firsts, Flat, Keys, Score, StablySorted;
    SortedKeepsElements(Keys(Firsts({}, Flat(lists))), TallyOrder(m), ranking, perm);
    forall i | 0 <= i < |ranking| ensures ScoreIn(m, ranking[i]) == Score(lists, ranking[i]) {
      assert ranking[i] in ranking;
    }
    SortedByEither(Keys(Firsts({}, Flat(lists))), TallyOrder(m), ScoreOrder(lists), ranking, perm);
  }

  lemma RankedIsKnown(m: map<string, Tally>, lists: seq<seq<Hit>>, ranking: seq<string>, perm: seq<nat>, i: nat)
    requires AllTallied(m, lists) && Ranked(lists, ranking, perm) && i < |ranking|
    ensures ranking[i] in m && m[ranking[i]].hit in Firsts({}, Flat(lists)) && Key(m[ranking[i]].hit) == ranking[i]
  {
    hide Firsts, Flat, Key, Score, StablySorted;
    var firsts := Firsts({}, Flat(lists));
    SortedKeepsElements(Keys(firsts), ScoreOrder(lists), ranking, perm);
    assert ranking[i] in ranking;
    var k :| 0 <= k < |firsts| && Keys(firsts)[k] == ranking[i];
    assert Key(firsts[k]) == ranking[i];
  }

  // ---------------------------------------------------------------- documentation recall

  const DOC_RECALL_FLOOR := 11
  const DOC_RECALL_CAP := 3

  function KeySet(hits: seq<Hit>): set<string>
  {
    set k | k in Keys(hits)
  }

  function Take(hits: seq<Hit>, limit: nat): seq<Hit>
  {
    if |hits| > limit then hits[..limit] else hits
  }

  function Min(a: nat, b: nat): nat
  {
    if a < b then a else b
  }

  /** The base with the best misses put in just below the read window. */
  function Placed(base: seq<Hit>, misses: seq<Hit>, limit: nat): seq<Hit>
  {
    var at := Min(DOC_RECALL_FLOOR - 1, |base|);
    Take(base[..at] + misses[..Min(DOC_RECALL_CAP, |misses|)] + base[at..], limit)
  }

  function TierOrder(tier: string -> int): (Hit, Hit) -> bool
  {
    (a: Hit, b: Hit) => tier(a.file) < tier(b.file)
  }

  /** `misses` are the documentation hits whose keys the base lacks, in order of tier, ties as they came. */
  ghost predicate Misses(base: seq<Hit>, docs: seq<Hit>, tier: string -> int, misses: seq<Hit>, perm: seq<nat>)
  {
    StablySorted(Firsts(KeySet(Firsts({}, base)), docs), TierOrder(tier), misses, perm)
  }

  /** The result is the deduplicated base with its misses placed. */
  ghost predicate RecallOf(base: seq<Hit>, docs: seq<Hit>, limit: nat, tier: string -> int, res: seq<Hit>)
  {
    exists misses, perm :: Misses(base, docs, tier, misses, perm) && res == Placed(Firsts({}, base), misses, limit)
  }

  /** Adds documentation hits the base has missed. */
  method MergeDocRecall(base: seq<Hit>, docs: seq<Hit>, limit: nat, tier: string -> int)
    returns (res: seq<Hit>)
    ensures RecallOf(base, docs, limit, tier, res)
  {
    var out, seen := CollectFirsts({}, base);
    assert seen == KeySet(out);
    var found, _ := CollectFirsts(seen, docs);
    var sorted := Sort(found, TierOrder(tier));
    ghost var perm :| StablySorted(found, TierOrder(tier), sorted, perm);
    assert Misses(base, docs, tier, sorted, perm);
    if found == [] {
      assert out[..Min(DOC_RECALL_FLOOR - 1, |out|)] + [] + out[Min(DOC_RECALL_FLOOR - 1, |out|)..] == out;
      if |out| > limit {
        return out[..limit];
      }
      return out;
    }
    var n := DOC_RECALL_CAP;
    if n > |sorted| {
      n := |sorted|;
    }
    var at := DOC_RECALL_FLOOR - 1;
    if at > |out| {
      at := |out|;
    }
    res := out[..at] + sorted[..n] + out[at..];
    if |res| > limit {
      res := res[..limit];
    }
  }

  lemma FirstsSnoc(seen: set<string>, hits: seq<Hit>, h: Hit)
    ensures Firsts(seen, hits + [h]) ==
      if Key(h) in seen + KeySet(Firsts(seen, hits)) then Firsts(seen, hits) else Firsts(seen, hits) + [h]
  {
    hide Key, Keys;
    assert (hits + [h])[..|hits|] == hits;
  }

  lemma KeySetSnoc(hits: seq<Hit>, h: Hit)
    ensures KeySet(hits + [h]) == KeySet(hits) + {Key(h)}
  {
    KeysAppend(hits, [h]);
    assert Keys([h]) == [Key(h)];
    hide Key, Keys;
  }

  /** Keeps the first hit of every key not yet seen. */
  method CollectFirsts(before: set<string>, hits: seq<Hit>) returns (out: seq<Hit>, seen: set<string>)
    ensures out == Firsts(before, hits) && seen == before + KeySet(out)
  {
    out, seen := [], before;
    for i := 0 to |hits|
      invariant out == Firsts(before, hits[..i]) && seen == before + KeySet(out)
    {
      var h := hits[i];
      assert hits[..i + 1] == hits[..i] + [h];
      FirstsSnoc(before, hits[..i], h);
      KeySetSnoc(out, h);
      hide *;
      if Key(h) !in seen {
        seen := seen + {Key(h)};
        out := out + [h];
      }
    }
    assert hits[..|hits|] == hits;
  }

  /** The hits whose keys are, or are not, among the given ones, in order. */
  function Having(hits: seq<Hit>, keys: set<string>, among: bool): seq<Hit>
  {
    if hits == [] then []
    else
      Having(hits[..|hits| - 1], keys, among) +
      if (Key(hits[|hits| - 1]) in keys) == among then [hits[|hits| - 1]] else []
  }

  lemma {:induction false} HavingAppends(a: seq<Hit>, b: seq<Hit>, keys: set<string>, among: bool)
    ensures Having(a + b, keys, among) == Having(a, keys, among) + Having(b, keys, among)
    decreases |b|
  {
    if b == [] {
      assert a + b == a;
    } else {
      hide Key;
      assert (a + b)[..|a + b| - 1] == a + b[..|b| - 1];
      HavingAppends(a, b[..|b| - 1], keys, among);
    }
  }

  ghost predicate AllAmong(hits: seq<Hit>, keys: set<string>, among: bool)
  {
    forall i | 0 <= i < |hits| :: (Key(hits[i]) in keys) == among
  }

  lemma AllAmongSplits(hits: seq<Hit>, keys: set<string>, among: bool)
    requires AllAmong(hits, keys, among) && hits != []
    ensures AllAmong(hits[..|hits| - 1], keys, among) && (Key(hits[|hits| - 1]) in keys) == among
  {
    hide Key;
  }

  lemma {:induction false} HavingAll(hits: seq<Hit>, keys: set<string>, among: bool)
    requires AllAmong(hits, keys, among)
    ensures Having(hits, keys, among) == hits && Having(hits, keys, !among) == []
  {
    hide Key, AllAmong;
    if hits != [] {
      AllAmongSplits(hits, keys, among);
      HavingAll(hits[..|hits| - 1], keys, among);
      assert hits == hits[..|hits| - 1] + [hits[|hits| - 1]];
    }
  }

  lemma HavingOfTaken(hits: seq<Hit>, limit: nat, keys: set<string>, among: bool)
    ensures Having(Take(hits, limit), keys, among) <= Having(hits, keys, among)
  {
    hide Having, Key;
    if |hits| > limit {
      HavingAppends(hits[..limit], hits[limit..], keys, among);
      assert hits == hits[..limit] + hits[limit..];
    }
  }

  lemma HavingOfThree(a: seq<Hit>, b: seq<Hit>, c: seq<Hit>, keys: set<string>, among: bool)
    ensures Having(a + b + c, keys, among) == Having(a, keys, among) + Having(b, keys, among) + Having(c, keys, among)
  {
    HavingAppends(a, b, keys, among);
    HavingAppends(a + b, c, keys, among);
  }

  /** What the placed misses and the base are to each other. */
  ghost predicate Apart(base: seq<Hit>, misses: seq<Hit>)
  {
    DistinctKeys(base) && DistinctKeys(misses) && forall i | 0 <= i < |misses| :: Key(misses[i]) !in KeySet(base)
  }

  lemma MissesAreApart(base: seq<Hit>, docs: seq<Hit>, tier: string -> int, misses: seq<Hit>, perm: seq<nat>)
    requires Misses(base, docs, tier, misses, perm)
    ensures Apart(Firsts({}, base), misses)
  {
    var b := Firsts({}, base);
    var found := Firsts(KeySet(b), docs);
    FirstsAreFirst({}, base);
    FirstsAreFirst(KeySet(b), docs);
    hide Key, Firsts, KeySet;
    forall i | 0 <= i < |misses| ensures Key(misses[i]) !in KeySet(b) {
      assert Keys(found)[perm[i]] in Keys(found);
    }
  }

  /** Putting the misses in leaves the base in order and adds no more than the cap. */
  lemma PlacedSplits(base: seq<Hit>, misses: seq<Hit>, limit: nat)
    requires Apart(base, misses)
    ensures Having(Placed(base, misses, limit), KeySet(base), true) <= base
    ensures Having(Placed(base, misses, limit), KeySet(base), false) <= misses[..Min(DOC_RECALL_CAP, |misses|)]
  {
    BaseKeysAreAmong(base);
    hide Having, Key, KeySet;
    var keys, at, n := KeySet(base), Min(DOC_RECALL_FLOOR - 1, |base|), Min(DOC_RECALL_CAP, |misses|);
    HavingAll(base[..at], keys, true);
    HavingAll(base[at..], keys, true);
    HavingAll(misses[..n], keys, false);
    HavingOfThree(base[..at], misses[..n], base[at..], keys, true);
    HavingOfThree(base[..at], misses[..n], base[at..], keys, false);
    HavingOfTaken(base[..at] + misses[..n] + base[at..], limit, keys, true);
    HavingOfTaken(base[..at] + misses[..n] + base[at..], limit, keys, false);
    assert base[..at] + [] + base[at..] == base;
    assert [] + misses[..n] + [] == misses[..n];
  }

  lemma BaseKeysAreAmong(base: seq<Hit>)
    ensures forall i | 0 <= i < |base| :: Key(base[i]) in KeySet(base)
  {
    hide Key;
    forall i | 0 <= i < |base| ensures Key(base[i]) in KeySet(base) {
      assert Keys(base)[i] in Keys(base);
    }
  }

  lemma PlacedIsDistinct(base: seq<Hit>, misses: seq<Hit>, limit: nat)
    requires Apart(base, misses)
    ensures DistinctKeys(Placed(base, misses, limit))
  {
    BaseKeysAreAmong(base);
    hide Key, KeySet;
    var at, n := Min(DOC_RECALL_FLOOR - 1, |base|), Min(DOC_RECALL_CAP, |misses|);
    assert forall i, j | 0 <= i < |base| && 0 <= j < |misses| :: Key(base[i]) != Key(misses[j]);
    assert DistinctKeys(base[..at] + misses[..n] + base[at..]);
  }

  lemma PlacedKeepsTop(base: seq<Hit>, misses: seq<Hit>, limit: nat)
    ensures |Placed(base, misses, limit)| == Min(limit, |base| + Min(DOC_RECALL_CAP, |misses|))
    ensures forall i: nat | i < 10 && i < |base| && i < limit :: Placed(base, misses, limit)[i] == base[i]
  {}

  /** Recall never disturbs the top: the first ten base hits stay where they are, the rest of the base keeps its
      order, at most three documentation hits come in, those of the best tiers, and no key is there twice. */
  lemma RecallKeepsTheTop(base: seq<Hit>, docs: seq<Hit>, limit: nat, tier: string -> int, misses: seq<Hit>,
      perm: seq<nat>)
    requires Misses(base, docs, tier, misses, perm)
    ensures var b := Firsts({}, base); var res := Placed(b, misses, limit);
      && |res| == Min(limit, |b| + Min(DOC_RECALL_CAP, |misses|))
      && (forall i: nat | i < 10 && i < |b| && i < limit :: res[i] == b[i])
      && Having(res, KeySet(b), true) <= b
      && Having(res, KeySet(b), false) <= misses[..Min(DOC_RECALL_CAP, |misses|)]
      && DistinctKeys(res)
  {
    hide *;
    MissesAreApart(base, docs, tier, misses, perm);
    PlacedKeepsTop(Firsts({}, base), misses, limit);
    PlacedSplits(Firsts({}, base), misses, limit);
    PlacedIsDistinct(Firsts({}, base), misses, limit);
  }
}
