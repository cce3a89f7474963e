/** Fitting ranked candidates into an explicit budget of tokens and bytes. */
module Packing {
  import opened Wrappers
  import opened StableSort
  import opened Ranking

  // ---------------------------------------------------------------- one source first

  /** The evidence a candidate speaks for: its first cited path, or itself. */
  function SourceOf(c: Candidate): string
  {
    if c.citations != [] && c.citations[0] != "" then c.citations[0] else c.id
  }

  function Sources(cs: seq<Candidate>): set<string>
  {
    set c | c in cs :: SourceOf(c)
  }

  /** The candidates that are, or are not, the first of their source, in order. */
  function Firsts(cs: seq<Candidate>, first: bool): seq<Candidate>
  {
    if cs == [] then []
    else
      var front, c := cs[..|cs| - 1], cs[|cs| - 1];
      Firsts(front, first) + if (SourceOf(c) !in Sources(front)) == first then [c] else []
  }

  function Diversified(cs: seq<Candidate>): seq<Candidate>
  {
    Firsts(cs, true) + Firsts(cs, false)
  }

  method Diversify(cs: seq<Candidate>) returns (r: seq<Candidate>)
    ensures r == Diversified(cs)
  {
    var first: seq<Candidate>, repeats: seq<Candidate>, seen: set<string> := [], [], {};
    for i := 0 to |cs|
      invariant first == Firsts(cs[..i], true) && repeats == Firsts(cs[..i], false) && seen == Sources(cs[..i])
    {
      assert cs[..i + 1][..i] == cs[..i] && cs[..i + 1] == cs[..i] + [cs[i]];
      SourcesSnoc(cs[..i], cs[i]);
      hide SourceOf, Sources;
      var source := SourceOf(cs[i]);
      if source !in seen {
        seen := seen + {source};
        first := first + [cs[i]];
      } else {
        repeats := repeats + [cs[i]];
      }
    }
    assert cs[..|cs|] == cs;
    r := first + repeats;
  }

  /** Diversifying loses and adds nothing. */
  lemma {:induction false} DiversifyIsPermutation(cs: seq<Candidate>)
    ensures multiset(Diversified(cs)) == multiset(cs) && |Diversified(cs)| == |cs|
  {
    if cs != [] {
      hide SourceOf, Sources;
      var front, c := cs[..|cs| - 1], cs[|cs| - 1];
      assert cs == front + [c];
      DiversifyIsPermutation(front);
    }
  }

  lemma FirstsSnoc(cs: seq<Candidate>)
    requires cs != []
    ensures var front, c := cs[..|cs| - 1], cs[|cs| - 1];
      && Firsts(cs, true) == (if SourceOf(c) in Sources(front) then Firsts(front, true) else Firsts(front, true) + [c])
      && Sources(cs) == Sources(front) + {SourceOf(c)}
  {
    var front, c := cs[..|cs| - 1], cs[|cs| - 1];
    assert cs == front + [c];
    SourcesSnoc(front, c);
    hide SourceOf, Sources;
    assert Firsts(front, true) + [] == Firsts(front, true);
  }

  /** Every source has its first candidate before any repeat, and no source has two places there. */
  lemma {:induction false} EverySourceComesFirst(cs: seq<Candidate>)
    ensures Sources(Firsts(cs, true)) == Sources(cs)
    ensures forall i, j | 0 <= i < j < |Firsts(cs, true)| ::
      SourceOf(Firsts(cs, true)[i]) != SourceOf(Firsts(cs, true)[j])
  {
    if cs != [] {
      var front, c := cs[..|cs| - 1], cs[|cs| - 1];
      FirstsSnoc(cs);
      EverySourceComesFirst(front);
      SourcesSnoc(Firsts(front, true), c);
      FirstsAreAmongSources(front);
      hide SourceOf, Sources, Firsts;
    } else {
      assert Firsts(cs, true) == cs;
    }
  }

  lemma SourcesSnoc(cs: seq<Candidate>, c: Candidate)
    ensures Sources(cs + [c]) == Sources(cs) + {SourceOf(c)}
  {
    hide SourceOf;
  }

  lemma FirstsAreAmongSources(cs: seq<Candidate>)
    requires Sources(Firsts(cs, true)) == Sources(cs)
    ensures forall i | 0 <= i < |Firsts(cs, true)| :: SourceOf(Firsts(cs, true)[i]) in Sources(cs)
  {
    hide SourceOf, Firsts;
    forall i | 0 <= i < |Firsts(cs, true)| ensures SourceOf(Firsts(cs, true)[i]) in Sources(cs) {
      assert Firsts(cs, true)[i] in Firsts(cs, true);
    }
  }

  // ---------------------------------------------------------------- requests and costs

  /** The mode as requested; empty stands for compact. */
  datatype Request = Request(mode: string, budgetTokens: int, budgetBytes: int)

  datatype Mode = Compact | Standard | Full

  function ParsedMode(mode: string): Option<Mode>
  {
    if mode == "" || mode == "compact" then Some(Compact)
    else if mode == "standard" then Some(Standard)
    else if mode == "full" then Some(Full)
    else None
  }

  /** Unknown modes, negative budgets and full detail without a budget are refused. */
  predicate Valid(q: Request)
  {
    ParsedMode(q.mode).Some? && q.budgetTokens >= 0 && q.budgetBytes >= 0 &&
    !(ParsedMode(q.mode) == Some(Full) && q.budgetTokens == 0 && q.budgetBytes == 0)
  }

  const DEFAULT_TOKENS := 1800

  /** Without any budget a token budget applies. */
  function WithDefault(q: Request): Request
  {
    if q.budgetTokens == 0 && q.budgetBytes == 0 then q.(budgetTokens := DEFAULT_TOKENS) else q
  }

  /** The fullest content a candidate has for a mode, and the mode that content is of. */
  function ContentForMode(c: Candidate, mode: Mode): (string, Mode)
  {
    if mode.Full? && c.full != "" then (c.full, Full)
    else if !mode.Compact? && c.standard != "" then (c.standard, Standard)
    else (c.compact, Compact)
  }

  function CostText(c: Candidate, content: string): string
  {
    c.title + "\n" + c.summary + "\n" + content
  }

  function ByteQuarter(text: string): int
  {
    (|text| + 3) / 4
  }

  datatype Budget = Budget(tokens: int, bytes: nat, exact: nat)

  datatype Item = Item(candidate: Candidate, content: string, tokens: int)

  datatype Packet = Packet(items: seq<Item>, budget: Budget, duplicates: nat, omitted: nat, requestedTokens: int,
      requestedBytes: int, next: bool)

  predicate Fits(b: Budget, q: Request, estimate: string -> int, text: string)
  {
    !(q.budgetTokens > 0 && b.tokens + estimate(text) > q.budgetTokens) &&
    !(q.budgetBytes > 0 && b.bytes + |text| > q.budgetBytes)
  }

  // ---------------------------------------------------------------- what a packet promises

  ghost predicate Holds(b: Budget, q: Request)
  {
    (q.budgetTokens > 0 ==> b.tokens <= q.budgetTokens) && (q.budgetBytes > 0 ==> b.bytes <= q.budgetBytes)
  }

  function TokenSum(items: seq<Item>): int
  {
    if items == [] then 0 else TokenSum(items[..|items| - 1]) + items[|items| - 1].tokens
  }

  function ByteSum(items: seq<Item>): nat
  {
    if items == [] then 0
    else ByteSum(items[..|items| - 1]) + |CostText(items[|items| - 1].candidate, items[|items| - 1].content)|
  }

  function BudgetOf(items: seq<Item>): Budget
  {
    Budget(TokenSum(items), ByteSum(items), ByteSum(items))
  }

  /** The reported budget is the sum of the items' costs, and each item's tokens are those of its text. */
  ghost predicate Adds(items: seq<Item>, b: Budget, estimate: string -> int)
  {
    b == BudgetOf(items) && forall k | 0 <= k < |items| ::
      items[k].tokens == estimate(CostText(items[k].candidate, items[k].content))
  }

  ghost predicate FirstOfId(ranked: seq<Candidate>, p: nat)
    requires p < |ranked|
  {
    forall q | 0 <= q < p :: ranked[q].id != ranked[p].id
  }

  /** The item is the candidate with the content of the mode asked for when that fits, and with its compact content
      when it does not. */
  ghost predicate Renders(item: Item, c: Candidate, mode: Mode, b: Budget, q: Request, estimate: string -> int)
  {
    item.candidate.(why := c.why) == c &&
    item.content == (if Fits(b, q, estimate, CostText(c, ContentForMode(c, mode).0)) then ContentForMode(c,
      mode).0 else c.compact)
  }

  /** The items come from the positions `kept`, in order, each the first candidate with its identifier. */
  ghost predicate Selected(items: seq<Item>, ranked: seq<Candidate>, kept: seq<nat>, mode: Mode, q: Request,
      estimate: string -> int, done: nat)
    requires done <= |ranked|
  {
    |kept| == |items| && (forall j, k | 0 <= j < k < |kept| :: kept[j] < kept[k]) &&
    forall k | 0 <= k < |kept| ::
      kept[k] < done && FirstOfId(ranked, kept[k]) &&
        Renders(items[k], ranked[kept[k]], mode, BudgetOf(items[..k]), q, estimate)
  }

  /** The budget in use when position `p` came up. */
  ghost function BudgetBefore(items: seq<Item>, kept: seq<nat>, p: nat): Budget
    requires |kept| == |items|
  {
    if items == [] || kept[|kept| - 1] < p then BudgetOf(items) else BudgetBefore(items[..|items| - 1],
      kept[..|kept| - 1], p)
  }

  /** A candidate is left out for the budget only when not even its compact form fitted when it came up. */
  ghost predicate Greedy(items: seq<Item>, ranked: seq<Candidate>, kept: seq<nat>, q: Request,
      estimate: string -> int, done: nat)
    requires done <= |ranked| && |kept| == |items|
  {
    forall p: nat | p < done && FirstOfId(ranked, p) && p !in kept ::
      !Fits(BudgetBefore(items, kept, p), q, estimate, CostText(ranked[p], ranked[p].compact))
  }

  /** The budgets hold, the costs add up, every candidate is accounted for, and the choice is the greedy one. */
  ghost predicate Packed(p: Packet, ranked: seq<Candidate>, kept: seq<nat>, mode: Mode, q: Request,
      estimate: string -> int, done: nat)
    requires done <= |ranked|
  {
    Holds(p.budget, q) && Adds(p.items, p.budget, estimate) &&
      Selected(p.items, ranked, kept, mode, q, estimate, done) &&
    |p.items| + p.duplicates + p.omitted == done && Greedy(p.items, ranked, kept, q, estimate, done)
  }

  /** Taking a candidate that fits. */
  lemma TakeKeeps(p: Packet, ranked: seq<Candidate>, kept: seq<nat>, mode: Mode, q: Request, estimate: string -> int,
      i: nat, item: Item, r: Packet)
    requires i < |ranked| && Packed(p, ranked, kept, mode, q, estimate, i) && FirstOfId(ranked, i)
    requires Renders(item, ranked[i], mode, p.budget, q, estimate)
    requires var text := CostText(ranked[i], item.content);
      && item.tokens == estimate(text) && Fits(p.budget, q, estimate, text)
      && r == p.(items := p.items + [item],
                 budget := Budget(p.budget.tokens + item.tokens, p.budget.bytes + |text|, p.budget.exact + |text|))
    ensures Packed(r, ranked, kept + [i], mode, q, estimate, i + 1)
  {
    hide CostText, ContentForMode, FirstOfId, Greedy, BudgetOf;
    CostIgnoresWhy(item.candidate, ranked[i], item.content);
    SelectOneMore(p.items, ranked, kept, mode, q, estimate, i, item);
    AddOneMore(p.items, p.budget, estimate, item, r.budget);
    GreedyGoesOn(p.items, ranked, kept, q, estimate, i, item);
    hide Selected, Adds;
  }

  lemma CostIgnoresWhy(a: Candidate, c: Candidate, content: string)
    requires a.(why := c.why) == c
    ensures CostText(a, content) == CostText(c, content)
  {
    assert a.title == c.title && a.summary == c.summary;
  }

  lemma SelectOneMore(items: seq<Item>, ranked: seq<Candidate>, kept: seq<nat>, mode: Mode, q: Request,
      estimate: string -> int, i: nat, item: Item)
    requires i < |ranked| && Selected(items, ranked, kept, mode, q, estimate, i) && FirstOfId(ranked, i)
    requires Renders(item, ranked[i], mode, BudgetOf(items), q, estimate)
    ensures Selected(items + [item], ranked, kept + [i], mode, q, estimate, i + 1)
  {
    hide FirstOfId, Renders, BudgetOf;
    assert forall k | 0 <= k <= |items| :: (items + [item])[..k] == items[..k];
    assert items[..|items|] == items;
  }

  lemma AddOneMore(items: seq<Item>, b: Budget, estimate: string -> int, item: Item, after: Budget)
    requires Adds(items, b, estimate)
    requires var text := CostText(item.candidate, item.content);
      item.tokens == estimate(text) && after == Budget(b.tokens + item.tokens, b.bytes + |text|, b.exact + |text|)
    ensures Adds(items + [item], after, estimate)
  {
    hide CostText;
    assert (items + [item])[..|items|] == items;
  }

  lemma GreedyGoesOn(items: seq<Item>, ranked: seq<Candidate>, kept: seq<nat>, q: Request, estimate: string -> int,
      i: nat, item: Item)
    requires i < |ranked| && |kept| == |items| && Greedy(items, ranked, kept, q, estimate, i)
    ensures Greedy(items + [item], ranked, kept + [i], q, estimate, i + 1)
  {
    hide CostText, FirstOfId, Fits, BudgetOf;
    forall p: nat | p < i + 1 && FirstOfId(ranked, p) && p !in kept + [i]
      ensures !Fits(BudgetBefore(items + [item], kept + [i], p), q, estimate, CostText(ranked[p], ranked[p].compact))
    {
      assert p != i by { assert (kept + [i])[|kept|] == i; }
      assert p !in kept by { assert forall k | 0 <= k < |kept| :: (kept + [i])[k] == kept[k]; }
      assert (items + [item])[..|items|] == items && (kept + [i])[..|kept|] == kept;
    }
  }

  /** Leaving out a candidate that is a duplicate, or whose compact form does not fit. */
  lemma LeaveKeeps(p: Packet, ranked: seq<Candidate>, kept: seq<nat>, mode: Mode, q: Request,
      estimate: string -> int, i: nat, r: Packet)
    requires i < |ranked| && Packed(p, ranked, kept, mode, q, estimate, i)
    requires !FirstOfId(ranked, i) || !Fits(p.budget, q, estimate, CostText(ranked[i], ranked[i].compact))
    requires r == (if FirstOfId(ranked, i) then p.(omitted := p.omitted + 1) else p.(duplicates := p.duplicates + 1))
    ensures Packed(r, ranked, kept, mode, q, estimate, i + 1)
  {
    hide CostText, FirstOfId, Renders, Fits, BudgetOf;
  }

  /** The packet is the greedy packing of the diversified ranking of the candidates. */
  ghost predicate PackingOf(format: real -> string, request: Request, candidates: seq<Candidate>,
      estimate: string -> int, p: Packet)
    requires Valid(request)
  {
    exists ranked, kept ::
      IsStableSort(AllExplained(format, candidates), RankOrder(), ranked) && |Diversified(ranked)| == |candidates| &&
      Packed(p, Diversified(ranked), kept, ParsedMode(request.mode).value, WithDefault(request), estimate, |candidates|)
  }

  /** Packs the candidates of a request, best first, one source first. */
  method Pack(format: real -> string, request: Request, candidates: seq<Candidate>, estimator: Option<string -> int>)
    returns (packet: Option<Packet>)
    ensures packet.Some? <==> Valid(request)
    ensures packet.Some? ==> PackingOf(format, request, candidates, Chosen(estimator), packet.value)
    ensures packet.Some? ==> packet.value.next == (packet.value.omitted > 0)
  {
    if !Valid(request) {
      return None;
    }
    var mode, q := ParsedMode(request.mode).value, WithDefault(request);
    var ranked := RankCandidates(format, candidates);
    SortedLength(format, candidates, ranked);
    DiversifyIsPermutation(ranked);
    var diverse := Diversify(ranked);
    hide Diversified, IsStableSort, Packed, Valid, ParsedMode, AllExplained, RankOrder;
    var p := PackAll(diverse, mode, q, Chosen(estimator));
    ghost var kept :| Packed(p, diverse, kept, mode, q, Chosen(estimator), |diverse|);
    packet := Some(p.(next := p.omitted > 0));
    NextChangesNothing(p, packet.value.next, diverse, kept, mode, q, Chosen(estimator));
    assert Packed(packet.value, Diversified(ranked), kept, mode, q, Chosen(estimator), |candidates|);
  }

  /** The estimator given, or a quarter of the bytes. */
  function Chosen(estimator: Option<string -> int>): string -> int
  {
    if estimator.Some? then estimator.value else ByteQuarter
  }

  lemma NextChangesNothing(p: Packet, next: bool, ranked: seq<Candidate>, kept: seq<nat>, mode: Mode, q: Request,
      estimate: string -> int)
    requires Packed(p, ranked, kept, mode, q, estimate, |ranked|)
    ensures Packed(p.(next := next), ranked, kept, mode, q, estimate, |ranked|)
  {
    hide Adds, Selected, Greedy;
  }

  lemma SortedLength(format: real -> string, candidates: seq<Candidate>, ranked: seq<Candidate>)
    requires IsStableSort(AllExplained(format, candidates), RankOrder(), ranked)
    ensures |ranked| == |candidates|
  {}

  /** The candidates one by one: a repeated identifier is left out, then what does not fit in the mode asked for is
      tried in its compact form. */
  method PackAll(ranked: seq<Candidate>, mode: Mode, q: Request, estimate: string -> int) returns (p: Packet)
    requires q.budgetTokens >= 0 && q.budgetBytes >= 0
    ensures exists kept :: Packed(p, ranked, kept, mode, q, estimate, |ranked|)
  {
    p := Packet([], Budget(0, 0, 0), 0, 0, q.budgetTokens, q.budgetBytes, false);
    ghost var kept: seq<nat> := [];
    var seen: set<string> := {};
    hide *;
    NothingIsPacked(p, ranked, mode, q, estimate);
    for i := 0 to |ranked|
      invariant Packed(p, ranked, kept, mode, q, estimate, i)
      invariant seen == Ids(ranked, i)
    {
      p, kept, seen := PackOne(ranked, i, p, kept, mode, q, estimate, seen);
    }
  }

  lemma NothingIsPacked(p: Packet, ranked: seq<Candidate>, mode: Mode, q: Request, estimate: string -> int)
    requires p.items == [] && p.budget == Budget(0, 0, 0) && p.duplicates == p.omitted == 0
    requires q.budgetTokens >= 0 && q.budgetBytes >= 0
    ensures Packed(p, ranked, [], mode, q, estimate, 0) && Ids(ranked, 0) == {}
  {}

  method PackOne(ranked: seq<Candidate>, i: nat, p: Packet, ghost kept: seq<nat>, mode: Mode, q: Request,
      estimate: string -> int, seen: set<string>)
    returns (r: Packet, ghost taken: seq<nat>, known: set<string>)
    requires i < |ranked| && Packed(p, ranked, kept, mode, q, estimate, i) && seen == Ids(ranked, i)
    ensures Packed(r, ranked, taken, mode, q, estimate, i + 1) && known == Ids(ranked, i + 1)
  {
    SeenIsFirst(ranked, i);
    hide Packed, CostText, ContentForMode, Fits, FirstOfId, Ids;
    taken, known := kept, seen + {ranked[i].id};
    if ranked[i].id in seen {
      r := p.(duplicates := p.duplicates + 1);
      LeaveKeeps(p, ranked, kept, mode, q, estimate, i, r);
    } else {
      r, taken := PackNew(ranked, i, p, kept, mode, q, estimate);
    }
  }

  /** A candidate not seen before is taken, or left out for the budget. */
  method PackNew(ranked: seq<Candidate>, i: nat, p: Packet, ghost kept: seq<nat>, mode: Mode, q: Request,
      estimate: string -> int)
    returns (r: Packet, ghost taken: seq<nat>)
    requires i < |ranked| && Packed(p, ranked, kept, mode, q, estimate, i) && FirstOfId(ranked, i)
    ensures Packed(r, ranked, taken, mode, q, estimate, i + 1)
  {
    hide Packed, CostText, ContentForMode, Fits, FirstOfId;
    var c := ranked[i];
    var content, used, fitting := Choose(c, mode, p.budget, q, estimate);
    if !fitting {
      r, taken := p.(omitted := p.omitted + 1), kept;
      LeaveKeeps(p, ranked, kept, mode, q, estimate, i, r);
    } else {
      r, taken := Take(ranked, i, p, kept, mode, q, estimate, content, used);
    }
  }

  /** The candidate's item goes behind the others, and what it costs is added up. */
  method Take(ranked: seq<Candidate>, i: nat, p: Packet, ghost kept: seq<nat>, mode: Mode, q: Request,
      estimate: string -> int, content: string, used: Mode)
    returns (r: Packet, ghost taken: seq<nat>)
    requires i < |ranked| && Packed(p, ranked, kept, mode, q, estimate, i) && FirstOfId(ranked, i)
    requires content == (if Fits(p.budget, q, estimate, CostText(ranked[i], ContentForMode(ranked[i], mode).0))
                         then ContentForMode(ranked[i], mode).0 else ranked[i].compact)
    requires Fits(p.budget, q, estimate, CostText(ranked[i], content))
    ensures Packed(r, ranked, taken, mode, q, estimate, i + 1)
  {
    hide Packed, CostText, ContentForMode, Fits, Unique, FirstOfId;
    var c := ranked[i];
    var text := CostText(c, content);
    var why := UniqueStrings(c.why + ["packed as " + NameOf(used)]);
    var item := Item(c.(why := why), content, estimate(text));
    r := p.(items := p.items + [item],
            budget := Budget(p.budget.tokens + item.tokens, p.budget.bytes + |text|, p.budget.exact + |text|));
    TakeKeeps(p, ranked, kept, mode, q, estimate, i, item, r);
    taken := kept + [i];
  }

  /** The content of the mode asked for if it fits, else the compact content; and whether what was chosen fits. */
  method Choose(c: Candidate, mode: Mode, b: Budget, q: Request, estimate: string -> int)
    returns (content: string, used: Mode, fitting: bool)
    ensures content == if Fits(b, q, estimate, CostText(c, ContentForMode(c, mode).0)) then ContentForMode(c,
      mode).0 else c.compact
    ensures fitting == Fits(b, q, estimate, CostText(c, content))
    ensures !fitting ==> !Fits(b, q, estimate, CostText(c, c.compact))
  {
    hide CostText, Fits;
    var chosen := ContentForMode(c, mode);
    content, used := chosen.0, chosen.1;
    if !Fits(b, q, estimate, CostText(c, content)) && !mode.Compact? {
      var compact := ContentForMode(c, Compact);
      content, used := compact.0, compact.1;
    }
    fitting := Fits(b, q, estimate, CostText(c, content));
  }

  function NameOf(mode: Mode): string
  {
    match mode
    case Compact => "compact"
    case Standard => "standard"
    case Full => "full"
  }

  function Ids(ranked: seq<Candidate>, n: nat): set<string>
    requires n <= |ranked|
  {
    set p | 0 <= p < n :: ranked[p].id
  }

  lemma SeenIsFirst(ranked: seq<Candidate>, i: nat)
    requires i < |ranked|
    ensures FirstOfId(ranked, i) <==> ranked[i].id !in Ids(ranked, i)
    ensures Ids(ranked, i + 1) == Ids(ranked, i) + {ranked[i].id}
  {}

  /** The items of a packet have distinct identifiers. */
  lemma ItemsAreDistinct(p: Packet, ranked: seq<Candidate>, kept: seq<nat>, mode: Mode, q: Request,
      estimate: string -> int, j: nat, k: nat)
    requires Packed(p, ranked, kept, mode, q, estimate, |ranked|) && j < k < |p.items|
    ensures p.items[j].candidate.id != p.items[k].candidate.id
  {
    hide Adds, Greedy, ContentForMode, BudgetOf;
    assert p.items[j].candidate.id == ranked[kept[j]].id && p.items[k].candidate.id == ranked[kept[k]].id;
    assert FirstOfId(ranked, kept[k]);
  }

  ghost predicate NonNegative(estimate: string -> int)
  {
    forall text :: estimate(text) >= 0
  }

  lemma {:induction false} BudgetOnlyGrows(items: seq<Item>, kept: seq<nat>, p: nat)
    requires |kept| == |items| && forall k | 0 <= k < |items| :: items[k].tokens >= 0
    ensures BudgetBefore(items, kept, p).tokens <= BudgetOf(items).tokens
    ensures BudgetBefore(items, kept, p).bytes <= BudgetOf(items).bytes
  {
    if items != [] && kept[|kept| - 1] >= p {
      hide CostText;
      BudgetOnlyGrows(items[..|items| - 1], kept[..|kept| - 1], p);
    }
  }

  /** Packing is maximal: when no text costs less than nothing, no candidate left out for the budget fits what is left
      at the end, even in its compact form. */
  lemma PackingIsMaximal(p: Packet, ranked: seq<Candidate>, kept: seq<nat>, mode: Mode, q: Request,
      estimate: string -> int, i: nat)
    requires Packed(p, ranked, kept, mode, q, estimate, |ranked|) && NonNegative(estimate)
    requires i < |ranked| && FirstOfId(ranked, i) && i !in kept
    ensures !Fits(p.budget, q, estimate, CostText(ranked[i], ranked[i].compact))
  {
    assert |kept| == |p.items| && forall k | 0 <= k < |p.items| :: p.items[k].tokens >= 0;
    hide Selected, CostText, FirstOfId, BudgetBefore, BudgetOf;
    BudgetOnlyGrows(p.items, kept, i);
  }
}
