/** The documentation crawl: a queue loop over pages of arbitrary content that is a
    true breadth-first search bounded in depth and in pages. */
module Crawl {
  import opened Sequences
  import opened Wrappers

  /** A URL in its printed form, which is the key the crawl remembers it by. */
  type Url = string

  datatype Page = Page(markdown: string, links: seq<string>, flagged: bool)

  /** Everything the network and the file system answer. */
  datatype Site = Site(
    start: Url,
    host: Url -> string,
    path: Url -> string,
    parse: string -> Option<Url>,
    disallowed: string -> bool,
    fetch: Url -> Option<Page>,
    writable: Url -> bool)

  datatype Config = Config(maxDepth: int, maxPages: int, samePathPrefix: bool)

  datatype Item = Item(url: Url, depth: nat)

  function WithDefaults(c: Config): (r: Config)
    ensures r.maxDepth > 0 && r.maxPages > 0
  {
    c.(maxDepth := if c.maxDepth <= 0 then 3 else c.maxDepth,
       maxPages := if c.maxPages <= 0 then 200 else c.maxPages)
  }

  function TrimSlash(p: string): string
  {
    if p != "" && p[|p| - 1] == '/' then p[..|p| - 1] else p
  }

  predicate UnderPrefix(p: string, prefix: string)
  {
    prefix == "" || p == prefix || prefix + "/" <= p || prefix + "/" <= TrimSlash(p)
  }

  predicate Blank(s: string)
  {
    forall c | c in s :: c == ' ' || '\t' <= c <= '\r'
  }

  /** The crawl asks for this URL when it comes up. */
  predicate Admissible(s: Site, c: Config, u: Url)
  {
    s.host(u) == s.host(s.start) &&
    (c.samePathPrefix ==> UnderPrefix(s.path(u), TrimSlash(s.path(s.start)))) &&
    !s.disallowed(s.path(u))
  }

  predicate Extracted(s: Site, u: Url)
  {
    s.fetch(u).Some? && !Blank(s.fetch(u).value.markdown)
  }

  /** Page `u` is read and links to `v` on the same host. */
  ghost predicate Link(s: Site, c: Config, u: Url, v: Url)
  {
    Admissible(s, c, u) && Extracted(s, u) && s.host(v) == s.host(s.start) &&
    exists l :: l in s.fetch(u).value.links && s.parse(l) == Some(v)
  }

  /** `u` is reached from the start over exactly `k` links. */
  ghost predicate Hops(s: Site, c: Config, u: Url, k: nat)
    decreases k
  {
    if k == 0 then u == s.start else exists p :: Hops(s, c, p, k - 1) && Link(s, c, p, u)
  }

  /** `k` is the least link distance of `u`. */
  ghost predicate Distance(s: Site, c: Config, u: Url, k: nat)
  {
    Hops(s, c, u, k) && forall j: nat | j < k :: !Hops(s, c, u, j)
  }

  ghost predicate Within(s: Site, c: Config, u: Url, k: nat)
  {
    exists j: nat :: j <= k && Hops(s, c, u, j)
  }

  /** Requests are made in the order of least link distance. */
  ghost predicate NearestFirst(s: Site, c: Config, requests: seq<Url>)
  {
    forall i, j, k: nat, l: nat | 0 <= i < j < |requests| && Distance(s, c, requests[i], k) &&
      Distance(s, c, requests[j], l) :: k <= l
  }

  // ---------------------------------------------------------------- the search invariant

  /** Depths never fall along the queue and span at most one level. */
  ghost predicate Ordered(queue: seq<Item>)
  {
    forall i, j | 0 <= i < j < |queue| :: queue[i].depth <= queue[j].depth <= queue[0].depth + 1
  }

  ghost predicate Queued(queue: seq<Item>, k: int)
  {
    exists i :: 0 <= i < |queue| && queue[i].depth <= k
  }

  /** `u` has left the queue, or is waiting in it, at depth `k` or less. */
  ghost predicate Seen(queue: seq<Item>, depth: map<Url, nat>, u: Url, k: int)
  {
    (u in depth && depth[u] <= k) || exists i :: 0 <= i < |queue| && queue[i].url == u && queue[i].depth <= k
  }

  /** The start has been seen, and so has every link of a page above the depth bound,
      except for the links of `pending`. */
  ghost predicate Expanded(s: Site, c: Config, queue: seq<Item>, depth: map<Url, nat>, pending: set<Url>)
  {
    Seen(queue, depth, s.start, 0) &&
    forall u, v | u in depth && u !in pending && depth[u] < c.maxDepth && Link(s, c, u, v) ::
      Seen(queue, depth, v, depth[u] + 1)
  }

  ghost predicate Good(s: Site, c: Config, queue: seq<Item>, depth: map<Url, nat>, pending: set<Url>)
  {
    && Ordered(queue)
    && (forall i | 0 <= i < |queue| :: queue[i].depth <= c.maxDepth && Hops(s, c, queue[i].url, queue[i].depth))
    && (forall u | u in depth :: Distance(s, c, u, depth[u]) && depth[u] <= c.maxDepth)
    && Expanded(s, c, queue, depth, pending)
  }

  /** Whatever is within `k` hops has left the queue at that depth or sooner, unless
      something at that depth is still queued. */
  lemma {:induction false} Covered(s: Site, c: Config, queue: seq<Item>, depth: map<Url, nat>, u: Url, k: nat)
    requires Good(s, c, queue, depth, {}) && Hops(s, c, u, k) && k <= c.maxDepth && !Queued(queue, k)
    ensures u in depth && depth[u] <= k
    decreases k
  {
    if k > 0 {
      var p :| Hops(s, c, p, k - 1) && Link(s, c, p, u);
      assert !Queued(queue, k - 1);
      Covered(s, c, queue, depth, p, k - 1);
      assert Seen(queue, depth, u, depth[p] + 1);
    }
  }

  /** An unvisited URL at the head of the queue is at its least link distance. */
  lemma HeadIsNearest(s: Site, c: Config, queue: seq<Item>, depth: map<Url, nat>)
    requires Good(s, c, queue, depth, {}) && queue != [] && queue[0].url !in depth
    ensures Distance(s, c, queue[0].url, queue[0].depth)
  {
    forall j: nat | j < queue[0].depth ensures !Hops(s, c, queue[0].url, j) {
      if Hops(s, c, queue[0].url, j) {
        assert !Queued(queue, j);
        Covered(s, c, queue, depth, queue[0].url, j);
      }
    }
  }

  /** When nothing is queued, the visited URLs are exactly what the depth bound reaches. */
  lemma DrainedIsComplete(s: Site, c: Config, depth: map<Url, nat>, u: Url)
    requires c.maxDepth > 0 && Good(s, c, [], depth, {})
    ensures u in depth <==> Within(s, c, u, c.maxDepth)
  {
    if Within(s, c, u, c.maxDepth) {
      var j: nat :| j <= c.maxDepth && Hops(s, c, u, j);
      Covered(s, c, [], depth, u, j);
    }
    if u in depth {
      assert Hops(s, c, u, depth[u]);
    }
  }

  function Marked(depth: map<Url, nat>, cur: Item): map<Url, nat>
  {
    if cur.url in depth then depth else depth[cur.url := cur.depth]
  }

  /** Popping the head and marking its URL loses nothing that was seen. */
  lemma PopKeepsSeen(s: Site, c: Config, queue: seq<Item>, depth: map<Url, nat>, u: Url, k: int)
    requires Good(s, c, queue, depth, {}) && queue != [] && Seen(queue, depth, u, k)
    ensures Seen(queue[1..], Marked(depth, queue[0]), u, k)
  {
    var cur := queue[0];
    assert cur.url in depth ==> depth[cur.url] <= cur.depth;
    if !(u in depth && depth[u] <= k) {
      var i :| 0 <= i < |queue| && queue[i].url == u && queue[i].depth <= k;
      if i > 0 {
        assert queue[1..][i - 1] == queue[i];
      }
    }
  }

  lemma PopKeepsGood(s: Site, c: Config, queue: seq<Item>, depth: map<Url, nat>)
    requires Good(s, c, queue, depth, {}) && queue != []
    ensures Good(s, c, queue[1..], Marked(depth, queue[0]), if queue[0].url in depth then {} else {queue[0].url})
    ensures forall i | 0 <= i < |queue[1..]| :: queue[0].depth <= queue[1..][i].depth <= queue[0].depth + 1
  {
    var rest, after := queue[1..], Marked(depth, queue[0]);
    if queue[0].url !in depth {
      HeadIsNearest(s, c, queue, depth);
    }
    PopKeepsSeen(s, c, queue, depth, s.start, 0);
    forall u, v | u in depth && depth[u] < c.maxDepth && Link(s, c, u, v) ensures Seen(rest, after, v, depth[u] + 1) {
      PopKeepsSeen(s, c, queue, depth, v, depth[u] + 1);
    }
  }

  /** Queueing one more link of the page just read. */
  lemma PushKeepsGood(s: Site, c: Config, queue: seq<Item>, depth: map<Url, nat>, u: Url, v: Url)
    requires Good(s, c, queue, depth, {u}) && u in depth && depth[u] < c.maxDepth && Link(s, c, u, v)
    requires forall i | 0 <= i < |queue| :: depth[u] <= queue[i].depth <= depth[u] + 1
    ensures var longer := queue + [Item(v, depth[u] + 1)];
      Good(s, c, longer, depth, {u}) && Seen(longer, depth, v, depth[u] + 1) &&
      (forall x, k | Seen(queue, depth, x, k) :: Seen(longer, depth, x, k))
  {
    var item := Item(v, depth[u] + 1);
    var longer := queue + [item];
    assert Hops(s, c, v, depth[u] + 1);
    assert longer[|queue|] == item;
    forall x, k | Seen(queue, depth, x, k) ensures Seen(longer, depth, x, k) {
      if !(x in depth && depth[x] <= k) {
        var i :| 0 <= i < |queue| && queue[i].url == x && queue[i].depth <= k;
        assert longer[i] == queue[i];
      }
    }
  }

  lemma SeenGrows(queue: seq<Item>, longer: seq<Item>, depth: map<Url, nat>, u: Url, k: int)
    requires queue <= longer && Seen(queue, depth, u, k)
    ensures Seen(longer, depth, u, k)
  {
    if !(u in depth && depth[u] <= k) {
      var i :| 0 <= i < |queue| && queue[i].url == u && queue[i].depth <= k;
      assert longer[i] == queue[i];
    }
  }

  /** A page all of whose links have been seen is no longer pending. */
  lemma AllLinksSeen(s: Site, c: Config, queue: seq<Item>, depth: map<Url, nat>, u: Url)
    requires Good(s, c, queue, depth, {u}) && u in depth
    requires forall v | Link(s, c, u, v) :: Seen(queue, depth, v, depth[u] + 1)
    ensures Good(s, c, queue, depth, {})
  {}

  /** A page that is not read, or not above the depth bound, has no links to queue. */
  lemma NoLinks(s: Site, c: Config, queue: seq<Item>, depth: map<Url, nat>, u: Url)
    requires Good(s, c, queue, depth, {u}) && u in depth
    ensures !Admissible(s, c, u) || !Extracted(s, u) || depth[u] >= c.maxDepth ==> Good(s, c, queue, depth, {})
  {}

  lemma HeadFacts(s: Site, c: Config, queue: seq<Item>, depth: map<Url, nat>)
    requires Good(s, c, queue, depth, {}) && queue != []
    ensures Ordered(queue) && queue[0].depth <= c.maxDepth
  {}

  // ---------------------------------------------------------------- progress

  ghost function CountAt(queue: seq<Item>, k: nat): nat
  {
    if queue == [] then 0 else (if queue[0].depth == k then 1 else 0) + CountAt(queue[1..], k)
  }

  lemma {:induction false} CountAtAppend(queue: seq<Item>, more: seq<Item>, k: nat)
    ensures CountAt(queue + more, k) == CountAt(queue, k) + CountAt(more, k)
  {
    if queue == [] {
      assert queue + more == more;
    } else {
      CountAtAppend(queue[1..], more, k);
      assert (queue + more)[1..] == queue[1..] + more;
    }
  }

  ghost function LevelsLeft(c: Config, queue: seq<Item>): int
  {
    if queue == [] then 0 else c.maxDepth + 1 - queue[0].depth
  }

  ghost function HeadItems(queue: seq<Item>): nat
  {
    if queue == [] then 0 else CountAt(queue, queue[0].depth)
  }

  /** Popping the head and queueing deeper items leaves fewer levels, or fewer items at the head's. */
  lemma Progress(c: Config, queue: seq<Item>, more: seq<Item>)
    requires queue != [] && Ordered(queue) && queue[0].depth <= c.maxDepth
    requires forall m | m in more :: m.depth == queue[0].depth + 1
    ensures var next := queue[1..] + more;
      LevelsLeft(c, next) < LevelsLeft(c, queue) ||
      (LevelsLeft(c, next) == LevelsLeft(c, queue) && HeadItems(next) < HeadItems(queue))
  {
    var k := queue[0].depth;
    CountAtAppend(queue[1..], more, k);
    NoneAt(more, k);
    if queue[1..] == [] && more != [] {
      assert (queue[1..] + more)[0] in more;
    }
  }

  lemma {:induction false} NoneAt(queue: seq<Item>, k: nat)
    requires forall m | m in queue :: m.depth != k
    ensures CountAt(queue, k) == 0
  {
    if queue != [] {
      NoneAt(queue[1..], k);
    }
  }

  // ---------------------------------------------------------------- the crawler

  class Crawler {
    const site: Site
    const cfg: Config
    var queue: seq<Item>
    var visited: set<Url>
    /** The URLs asked for, in order. */
    var requests: seq<Url>
    var pages: nat
    var quarantined: nat
    /** The depth at which each visited URL first left the queue. */
    ghost var depth: map<Url, nat>

    constructor (s: Site, c: Config)
      requires c.maxDepth > 0 && c.maxPages > 0
      ensures site == s && cfg == c && Valid() && pages == 0
    {
      site, cfg := s, c;
      queue, visited, requests, pages, quarantined := [Item(s.start, 0)], {}, [], 0, 0;
      depth := map[];
    }

    /** The tallies, with `but` not asked for yet. */
    ghost predicate Counted(but: set<Url>)
      reads `pages, `quarantined, `requests, `visited, `depth
    {
      && cfg.maxDepth > 0 && pages <= cfg.maxPages && pages + quarantined <= |requests|
      && depth.Keys == visited && Distinct(requests)
      && (forall u :: u in requests <==> u in visited - but && Admissible(site, cfg, u))
    }

    /** The requests were made level by level, none deeper than what is queued. */
    ghost predicate LevelByLevel()
      reads `requests, `queue, `depth
    {
      && (forall u | u in requests :: u in depth)
      && (forall i, j | 0 <= i < j < |requests| :: depth[requests[i]] <= depth[requests[j]])
      && (forall u, i | u in requests && 0 <= i < |queue| :: depth[u] <= queue[i].depth)
    }

    ghost predicate Valid()
      reads this
    {
      Counted({}) && LevelByLevel() && Good(site, cfg, queue, depth, {})
    }

    /** The item has just left the queue: nothing queued is shallower or deeper by two. */
    ghost predicate Current(cur: Item)
      reads `requests, `queue, `depth
    {
      && cur.url in depth && depth[cur.url] == cur.depth <= cfg.maxDepth
      && (forall i | 0 <= i < |queue| :: cur.depth <= queue[i].depth <= cur.depth + 1)
      && (forall u | u in requests && u in depth :: depth[u] <= cur.depth)
    }

    /** The page at `cur` is being read: only its links may still be missing. */
    ghost predicate Reading(cur: Item)
      reads this
    {
      Counted({}) && LevelByLevel() && Current(cur) && Good(site, cfg, queue, depth, {cur.url})
    }

    /** A link that parses and is on the host has been seen a level below `cur`. */
    ghost predicate LinkSeen(cur: Item, l: string)
      reads this
    {
      site.parse(l).Some? && site.host(site.parse(l).value) == site.host(site.start) ==>
        Seen(queue, depth, site.parse(l).value, cur.depth + 1)
    }

    /** Queues one link of the page at `cur` when it parses, is new and is on the host. */
    method QueueLink(cur: Item, l: string)
      requires Reading(cur) && cur.depth < cfg.maxDepth
      requires Admissible(site, cfg, cur.url) && Extracted(site, cur.url) && l in site.fetch(cur.url).value.links
      modifies `queue
      ensures Reading(cur) && LinkSeen(cur, l)
      ensures queue == old(queue) ||
        (old(queue) <= queue && |queue| == |old(queue)| + 1 && queue[|old(queue)|].depth == cur.depth + 1)
    {
      hide Good, Link, Hops, Counted, Extracted;
      var link := site.parse(l);
      if link.None? || site.host(link.value) != site.host(site.start) {
        return;
      }
      LinkIsNear(cur, l, link.value);
      if link.value !in visited {
        PushKeepsGood(site, cfg, queue, depth, cur.url, link.value);
        queue := queue + [Item(link.value, cur.depth + 1)];
      }
    }

    lemma LinkIsNear(cur: Item, l: string, v: Url)
      requires Reading(cur) && Admissible(site, cfg, cur.url) && Extracted(site, cur.url)
      requires l in site.fetch(cur.url).value.links && site.parse(l) == Some(v) && site.host(v) == site.host(site.start)
      ensures Link(site, cfg, cur.url, v)
      ensures v in visited ==> v in depth && depth[v] <= cur.depth + 1
    {
      assert Link(site, cfg, cur.url, v);
      assert Hops(site, cfg, v, cur.depth + 1);
    }

    /** Queues the new links of the page at `cur`. */
    method QueueLinks(cur: Item, links: seq<string>)
      requires Reading(cur) && cur.depth < cfg.maxDepth
      requires Admissible(site, cfg, cur.url) && Extracted(site, cur.url) && site.fetch(cur.url).value.links == links
      modifies `queue
      ensures Valid()
      ensures old(queue) <= queue && forall m | m in queue[|old(queue)|..] :: m.depth == cur.depth + 1
    {
      hide Good;
      for i := 0 to |links|
        invariant Reading(cur)
        invariant old(queue) <= queue && forall m | m in queue[|old(queue)|..] :: m.depth == cur.depth + 1
        invariant forall j | 0 <= j < i :: LinkSeen(cur, links[j])
      {
        ghost var before := queue;
        QueueLink(cur, links[i]);
        assert before <= queue;
        forall x, k | Seen(before, depth, x, k) ensures Seen(queue, depth, x, k) {
          SeenGrows(before, queue, depth, x, k);
        }
      }
      forall v | Link(site, cfg, cur.url, v) ensures Seen(queue, depth, v, cur.depth + 1) {
        var l :| l in links && site.parse(l) == Some(v);
        assert LinkSeen(cur, l);
      }
      AllLinksSeen(site, cfg, queue, depth, cur.url);
    }

    /** Takes the head off the queue, and marks its URL visited when it is new. */
    method Pop() returns (cur: Item, unseen: bool)
      requires Valid() && queue != []
      modifies `queue, `visited, `depth
      ensures cur == old(queue)[0] && queue == old(queue)[1..] && unseen == (cur.url !in old(visited))
      ensures !unseen ==> Valid()
      ensures unseen ==> (Counted({cur.url}) && LevelByLevel() && Current(cur) &&
        Good(site, cfg, queue, depth, {cur.url}))
    {
      HeadFacts(site, cfg, queue, depth);
      PopKeepsGood(site, cfg, queue, depth);
      hide Good, Counted;
      cur := queue[0];
      unseen := cur.url !in visited;
      queue := queue[1..];
      if unseen {
        Mark(cur);
      }
    }

    method Mark(cur: Item)
      requires Counted({}) && LevelByLevel() && cur.url !in visited && cur.depth <= cfg.maxDepth
      requires forall i | 0 <= i < |queue| :: cur.depth <= queue[i].depth <= cur.depth + 1
      requires forall u | u in requests :: depth[u] <= cur.depth
      modifies `visited, `depth
      ensures visited == old(visited) + {cur.url} && depth == old(depth)[cur.url := cur.depth]
      ensures Counted({cur.url}) && LevelByLevel() && Current(cur)
    {
      assert cur.url !in requests;
      visited := visited + {cur.url};
      depth := depth[cur.url := cur.depth];
    }

    /** One turn of the loop: the head leaves the queue, and is visited when it is new. */
    method Turn()
      requires Valid() && queue != [] && pages < cfg.maxPages
      modifies this
      ensures Valid() && old(requests) <= requests
      ensures LevelsLeft(cfg, queue) < LevelsLeft(cfg, old(queue)) ||
        (LevelsLeft(cfg, queue) == LevelsLeft(cfg, old(queue)) && HeadItems(queue) < HeadItems(old(queue)))
    {
      HeadFacts(site, cfg, queue, depth);
      hide Good, LevelsLeft, HeadItems, Counted, LevelByLevel;
      ghost var rest := queue[1..];
      var cur, unseen := Pop();
      if unseen {
        Visit(cur);
      }
      assert queue == rest + queue[|rest|..];
      Progress(cfg, old(queue), queue[|rest|..]);
    }

    /** Asks for a new URL when it is admissible, keeps its page and queues its links. */
    method Visit(cur: Item)
      requires Counted({cur.url}) && LevelByLevel() && Current(cur) && pages < cfg.maxPages
      requires Good(site, cfg, queue, depth, {cur.url})
      modifies `queue, `requests, `pages, `quarantined
      ensures Valid() && old(requests) <= requests
      ensures old(queue) <= queue && forall m | m in queue[|old(queue)|..] :: m.depth == cur.depth + 1
    {
      NoLinks(site, cfg, queue, depth, cur.url);
      hide Good;
      if !Admissible(site, cfg, cur.url) {
        return;
      }
      Ask(cur);
      ReadPage(cur);
    }

    /** The request itself. */
    method Ask(cur: Item)
      requires Counted({cur.url}) && LevelByLevel() && Current(cur) && Admissible(site, cfg, cur.url)
      requires Good(site, cfg, queue, depth, {cur.url})
      modifies `requests
      ensures Reading(cur) && requests == old(requests) + [cur.url] && pages + quarantined < |requests|
    {
      hide Good, Admissible;
      requests := requests + [cur.url];
    }

    /** Keeps or quarantines the page just asked for, and queues its links. */
    method ReadPage(cur: Item)
      requires Reading(cur) && Admissible(site, cfg, cur.url)
      requires pages < cfg.maxPages && pages + quarantined < |requests|
      modifies `queue, `pages, `quarantined
      ensures Valid()
      ensures old(queue) <= queue && forall m | m in queue[|old(queue)|..] :: m.depth == cur.depth + 1
    {
      NoLinks(site, cfg, queue, depth, cur.url);
      hide Good;
      var page := site.fetch(cur.url);
      if page.None? || Blank(page.value.markdown) {
        return;
      }
      if page.value.flagged {
        quarantined := quarantined + 1;
      } else if site.writable(cur.url) {
        pages := pages + 1;
      }
      if cur.depth < cfg.maxDepth {
        QueueLinks(cur, page.value.links);
      }
    }

    /** The crawl. It ends for every site; it asks for distinct URLs, each admissible and
        within the depth bound; it keeps at most `maxPages` pages; and unless the page
        cap stops it, it asks for every admissible URL within the depth bound. */
    method Run()
      requires Valid() && cfg.maxPages > 0
      modifies this
      ensures Valid() && pages <= cfg.maxPages && Distinct(requests)
      ensures forall u | u in requests :: Admissible(site, cfg, u) && Within(site, cfg, u, cfg.maxDepth)
      ensures NearestFirst(site, cfg, requests)
      ensures pages < cfg.maxPages ==>
        forall u | Admissible(site, cfg, u) && Within(site, cfg, u, cfg.maxDepth) :: u in requests
    {
      while queue != [] && pages < cfg.maxPages
        invariant Valid()
        decreases LevelsLeft(cfg, queue), HeadItems(queue)
      {
        Turn();
      }
      forall u | u in visited ensures Within(site, cfg, u, cfg.maxDepth) {
        assert Hops(site, cfg, u, depth[u]);
      }
      forall u, k: nat | u in visited && Distance(site, cfg, u, k) ensures k == depth[u] {
        assert Distance(site, cfg, u, depth[u]);
      }
      if queue == [] {
        forall u ensures u in visited <==> Within(site, cfg, u, cfg.maxDepth) {
          DrainedIsComplete(site, cfg, depth, u);
        }
      }
    }
  }

  /** Crawls a site from its start under a configuration with its defaults applied. */
  method CrawlSite(site: Site, c: Config) returns (pages: nat, quarantined: nat, requests: seq<Url>)
    ensures var cfg := WithDefaults(c);
      && pages <= cfg.maxPages && pages + quarantined <= |requests| && Distinct(requests)
      && (forall u | u in requests :: Admissible(site, cfg, u) && Within(site, cfg, u, cfg.maxDepth))
      && NearestFirst(site, cfg, requests)
      && (pages < cfg.maxPages ==>
           forall u | Admissible(site, cfg, u) && Within(site, cfg, u, cfg.maxDepth) :: u in requests)
  {
    var crawler := new Crawler(site, WithDefaults(c));
    crawler.Run();
    return crawler.pages, crawler.quarantined, crawler.requests;
  }
}
