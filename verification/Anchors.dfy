/** Source anchors: the check of one anchor against the source as it is now, and the
    repair of the coordinates of those whose lines have moved. */
module Anchors {
  import opened Wrappers
  import opened Strings
  import opened SourceLines
  import opened Relocation

  datatype Anchor = Anchor(path: string, symbol: string, lineStart: int, lineEnd: int, contentHash: string)

  datatype Status = Current | Stale | Missing | Invalid | Moved

  datatype AnchorCheck = AnchorCheck(anchor: Anchor, status: Status, actual: string, movedStart: int, movedEnd: int)
  {
    /** The range to cite now. */
    function Cited(): (int, int)
    {
      if status.Moved? && movedStart > 0 then (movedStart, movedEnd) else (anchor.lineStart, anchor.lineEnd)
    }
  }

  datatype Read = Gone | Unreadable | Data(text: string)

  /** The source tree, the symbol resolver when there is one, and the digest of a region. */
  datatype Sources = Sources(
    clean: string -> Option<string>,
    read: string -> Read,
    resolver: Option<(string, string, string) -> Option<(int, int)>>,
    digest: string -> string)

  function AnchorRegion(s: Sources, a: Anchor, data: string): Option<(int, int)>
  {
    if a.symbol != "" && s.resolver.Some? then s.resolver.value(a.path, data, a.symbol)
    else if a.lineStart >= 1 && a.lineEnd >= a.lineStart then Some((a.lineStart, a.lineEnd))
    else None
  }

  function Plain(a: Anchor, status: Status, actual: string): AnchorCheck
  {
    AnchorCheck(a, status, actual, 0, 0)
  }

  /** The check of one anchor. */
  function Check(s: Sources, a: Anchor): AnchorCheck
  {
    if a.path == "" || s.clean(a.path).None? then Plain(a, Invalid, "")
    else
      match s.read(s.clean(a.path).value)
      case Gone => Plain(a, Missing, "")
      case Unreadable => Plain(a, Invalid, "")
      case Data(data) => CheckData(s, a, data)
  }

  function CheckData(s: Sources, a: Anchor, data: string): AnchorCheck
  {
    match AnchorRegion(s, a, data)
    case None =>
      if a.symbol == "" then Plain(a, Invalid, "")
      else if a.lineStart >= 1 && a.lineEnd >= a.lineStart
      then Search(s.digest, a, IndexOf(data), Span(a), a.lineStart, Plain(a, Missing, ""))
      else Plain(a, Missing, "")
    case Some((start, end)) => CheckRange(s.digest, a, IndexOf(data), start, end)
  }

  function Span(a: Anchor): int
  {
    a.lineEnd - a.lineStart + 1
  }

  function CheckRange(digest: string -> string, a: Anchor, ix: LineIndex, start: int, end: int): AnchorCheck
  {
    match Region(ix, start, end)
    case None => Plain(a, Invalid, "")
    case Some(region) =>
      if digest(region) == a.contentHash then Plain(a, Current, a.contentHash)
      else Search(digest, a, ix, end - start + 1, start, Plain(a, Stale, digest(region)))
  }

  /** The lines found elsewhere make the anchor moved; otherwise the given result stands. */
  function Search(digest: string -> string, a: Anchor, ix: LineIndex, span: int, origin: int,
      otherwise: AnchorCheck): AnchorCheck
  {
    match Relocated(ix, digest, a.contentHash, span, origin)
    case Some(start) => AnchorCheck(a, Moved, a.contentHash, start, start + span - 1)
    case None => otherwise
  }

  /** The check as it runs. */
  method CheckAnchorResolved(s: Sources, a: Anchor) returns (r: AnchorCheck)
    ensures r == Check(s, a)
  {
    if a.path == "" || s.clean(a.path).None? {
      return Plain(a, Invalid, "");
    }
    match s.read(s.clean(a.path).value) {
      case Gone => return Plain(a, Missing, "");
      case Unreadable => return Plain(a, Invalid, "");
      case Data(data) =>
        var ix := IndexLines(data);
        hide Relocated, IndexOf, Region;
        var region := AnchorRegion(s, a, data);
        if region.None? {
          if a.symbol == "" {
            return Plain(a, Invalid, "");
          }
          if a.lineStart >= 1 && a.lineEnd >= a.lineStart {
            var start, end, found := RelocateRegion(ix, s.digest, a.contentHash, a.lineEnd - a.lineStart + 1,
              a.lineStart);
            if found {
              return AnchorCheck(a, Moved, a.contentHash, start, end);
            }
          }
          return Plain(a, Missing, "");
        }
        var text := Region(ix, region.value.0, region.value.1);
        if text.None? {
          return Plain(a, Invalid, "");
        }
        if s.digest(text.value) == a.contentHash {
          return Plain(a, Current, a.contentHash);
        }
        var start, end, found := RelocateRegion(ix, s.digest, a.contentHash, region.value.1 - region.value.0 + 1,
          region.value.0);
        if found {
          return AnchorCheck(a, Moved, a.contentHash, start, end);
        }
        return Plain(a, Stale, s.digest(text.value));
    }
  }

  // ---------------------------------------------------------------- anchors survive shifts

  /** The anchor is pinned by its lines alone. */
  predicate ByLines(s: Sources, a: Anchor)
  {
    a.symbol == "" || s.resolver.None?
  }

  /** The anchor's file can be read and holds its recorded range. */
  ghost predicate InFile(s: Sources, a: Anchor, lines: seq<string>)
  {
    a.path != "" && s.clean(a.path).Some? && s.read(s.clean(a.path).value).Data? &&
    lines == Lines(Normalized(s.read(s.clean(a.path).value).text)) && 1 <= a.lineStart <= a.lineEnd <= |lines|
  }

  /** The bytes of all the windows of `span` lines. */
  ghost function WindowBytes(lines: seq<string>, span: int): nat
    decreases |lines|
  {
    if span < 1 || span > |lines| then 0
    else |Join(lines[|lines| - span..], "\n")| + WindowBytes(lines[..|lines| - 1], span)
  }

  /** The lines from `at` on have the anchor's digest. */
  ghost predicate OccursAt(digest: string -> string, a: Anchor, lines: seq<string>, at: int)
  {
    1 <= at <= |lines| - Span(a) + 1 && 1 <= Span(a) &&
      digest(Join(lines[at - 1..at - 1 + Span(a)], "\n")) == a.contentHash
  }

  lemma OccursIsMatch(digest: string -> string, a: Anchor, ix: LineIndex, lines: seq<string>, at: int)
    requires Indexes(ix, lines) && 1 <= Span(a)
    ensures OccursAt(digest, a, lines, at) <==> Match(ix, digest, a.contentHash, Span(a), |lines| - Span(a) + 1, at)
  {
    hide Region, Indexes, Join;
    RegionIsLines(ix, lines, at, at + Span(a) - 1);
  }

  /** The windows summed by the search are the windows of the lines. */
  lemma {:induction false} BytesAreWindows(ix: LineIndex, lines: seq<string>, span: int, last: int, count: nat)
    requires Indexes(ix, lines) && 1 <= span && last == |lines| - span + 1 && count <= last
    ensures Bytes(ix, span, last, 1, count + 1) == WindowBytes(lines[..count + span - 1], span)
    decreases count
  {
    hide Region, Indexes, Join;
    if count > 0 {
      var part := lines[..count + span - 1];
      BytesAreWindows(ix, lines, span, last, count - 1);
      assert part[..|part| - 1] == lines[..count - 1 + span - 1];
      assert part[|part| - span..] == lines[count - 1..count + span - 1];
      RegionIsLines(ix, lines, count, count + span - 1);
    }
  }

  /** Within a file that holds its range, an anchor pinned by lines is judged by that range. */
  lemma CheckIsByRange(s: Sources, a: Anchor, lines: seq<string>) returns (ix: LineIndex)
    requires ByLines(s, a) && InFile(s, a, lines)
    ensures Indexes(ix, lines) && Check(s, a) == CheckRange(s.digest, a, ix, a.lineStart, a.lineEnd)
  {
    hide Indexes, CheckRange, Lines, Normalized, Region;
    ix := IndexOf(s.read(s.clean(a.path).value).text);
  }

  /** No window with the digest is nearer to the recorded range than the one at `found`. */
  ghost predicate NearestOccurrence(digest: string -> string, a: Anchor, lines: seq<string>, found: int)
  {
    var origin := Clamp(a.lineStart, |lines| - Span(a) + 1);
    OccursAt(digest, a, lines, found) && forall at | OccursAt(digest, a, lines, at) ::
      Distance(origin, found) < Distance(origin, at) || (Distance(origin, found) == Distance(origin, at) && at <= found)
  }

  lemma OccursInRange(digest: string -> string, a: Anchor, lines: seq<string>)
    requires 1 <= a.lineStart <= a.lineEnd <= |lines|
    ensures OccursAt(digest, a, lines, a.lineStart) <==>
      digest(Join(lines[a.lineStart - 1..a.lineEnd], "\n")) == a.contentHash
  {}

  /** A search of the file finds the nearest occurrence. */
  lemma SearchFindsNearest(digest: string -> string, a: Anchor, ix: LineIndex, lines: seq<string>)
    requires Indexes(ix, lines) && 1 <= Span(a) && Relocated(ix, digest, a.contentHash, Span(a), a.lineStart).Some?
    ensures NearestOccurrence(digest, a, lines, Relocated(ix, digest, a.contentHash, Span(a), a.lineStart).value)
  {
    assert |ix.starts| == |lines|;
    hide Indexes, Relocated, Match, OccursAt, Distance, Clamp;
    var last := |lines| - Span(a) + 1;
    RelocationIsNearest(ix, digest, a.contentHash, Span(a), a.lineStart);
    forall at ensures OccursAt(digest, a, lines, at) <==> Match(ix, digest, a.contentHash, Span(a), last, at) {
      OccursIsMatch(digest, a, ix, lines, at);
    }
  }

  /** Within the byte cap, a search that finds nothing has missed nothing. */
  lemma SearchMissesNothing(digest: string -> string, a: Anchor, ix: LineIndex, lines: seq<string>, at: int)
    requires Indexes(ix, lines) && a.contentHash != "" && OccursAt(digest, a, lines, at)
    requires WindowBytes(lines, Span(a)) <= MAX_RELOCATION_BYTES
    ensures Relocated(ix, digest, a.contentHash, Span(a), a.lineStart).Some?
  {
    assert |ix.starts| == |lines|;
    assert 1 <= Span(a) <= |lines|;
    hide Indexes, Relocated, Match, OccursAt, Distance, Clamp, WindowBytes, Bytes, Cost;
    var last := |lines| - Span(a) + 1;
    BytesAreWindows(ix, lines, Span(a), last, last);
    assert lines[..last + Span(a) - 1] == lines;
    OccursIsMatch(digest, a, ix, lines, at);
    if Relocated(ix, digest, a.contentHash, Span(a), a.lineStart).None? {
      RelocationIsComplete(ix, digest, a.contentHash, Span(a), a.lineStart);
    }
  }

  lemma RangeVerdict(digest: string -> string, a: Anchor, ix: LineIndex, lines: seq<string>)
    requires Indexes(ix, lines) && 1 <= a.lineStart <= a.lineEnd <= |lines| && a.contentHash != ""
    ensures var r := CheckRange(digest, a, ix, a.lineStart, a.lineEnd);
      && (r.status.Current? <==> OccursAt(digest, a, lines, a.lineStart))
      && (r.status.Moved? ==> (NearestOccurrence(digest, a, lines, r.movedStart) &&
        r.movedEnd == r.movedStart + Span(a) - 1))
      && (r.status.Current? || r.status.Moved? || r.status.Stale?)
      && (r.status.Stale? && WindowBytes(lines, Span(a)) <= MAX_RELOCATION_BYTES ==>
        forall at :: !OccursAt(digest, a, lines, at))
  {
    hide Region, Indexes, Join, Relocated, OccursAt, WindowBytes, NearestOccurrence;
    RegionIsLines(ix, lines, a.lineStart, a.lineEnd);
    OccursInRange(digest, a, lines);
    if Relocated(ix, digest, a.contentHash, Span(a), a.lineStart).Some? {
      SearchFindsNearest(digest, a, ix, lines);
    }
    forall at | OccursAt(digest, a, lines, at) && WindowBytes(lines, Span(a)) <= MAX_RELOCATION_BYTES
      ensures Relocated(ix, digest, a.contentHash, Span(a), a.lineStart).Some?
    {
      SearchMissesNothing(digest, a, ix, lines, at);
    }
  }

  /** What the check of an anchor pinned by lines means: current exactly when its own lines have the digest,
      moved only to the nearest window that has it, the later of two, and stale only when no window has it. */
  lemma VerdictByLines(s: Sources, a: Anchor, lines: seq<string>)
    requires ByLines(s, a) && InFile(s, a, lines) && a.contentHash != ""
    ensures var r := Check(s, a);
      && (r.status.Current? <==> OccursAt(s.digest, a, lines, a.lineStart))
      && (r.status.Moved? ==> (NearestOccurrence(s.digest, a, lines, r.movedStart) &&
        r.movedEnd == r.movedStart + Span(a) - 1))
      && (r.status.Current? || r.status.Moved? || r.status.Stale?)
      && (r.status.Stale? && WindowBytes(lines, Span(a)) <= MAX_RELOCATION_BYTES ==>
        forall at :: !OccursAt(s.digest, a, lines, at))
  {
    hide Indexes, OccursAt, NearestOccurrence, WindowBytes, Check, CheckRange;
    var ix := CheckIsByRange(s, a, lines);
    RangeVerdict(s.digest, a, ix, lines);
  }

  /** The anchored lines, when they occur unchanged anywhere in a file that still holds the range, keep the
      anchor current or moved, whatever else the edit did; and the moved range holds those very lines. */
  lemma AnchorsSurviveShifts(before: Sources, after: Sources, a: Anchor, was: seq<string>, above: seq<string>,
      below: seq<string>)
    requires ByLines(before, a) && InFile(before, a, was) && Check(before, a).status.Current? && a.contentHash != ""
    requires ByLines(after, a) && after.digest == before.digest
    requires InFile(after, a, above + was[a.lineStart - 1..a.lineEnd] + below)
    requires WindowBytes(above + was[a.lineStart - 1..a.lineEnd] + below, Span(a)) <= MAX_RELOCATION_BYTES
    ensures Check(after, a).status.Current? || Check(after, a).status.Moved?
    ensures (forall x, y :: after.digest(x) == after.digest(y) ==> x == y) && Check(after, a).status.Moved? ==>
      var now := above + was[a.lineStart - 1..a.lineEnd] + below;
      var r := Check(after, a);
      1 <= r.movedStart <= r.movedEnd <= |now| &&
      Join(now[r.movedStart - 1..r.movedEnd], "\n") == Join(was[a.lineStart - 1..a.lineEnd], "\n")
  {
    hide Check, InFile, WindowBytes, Join;
    RangeInFile(before, a, was);
    var kept := was[a.lineStart - 1..a.lineEnd];
    var lines := above + kept + below;
    VerdictByLines(before, a, was);
    VerdictByLines(after, a, lines);
    assert lines[|above|..|above| + |kept|] == kept;
    OccursInRange(before.digest, a, was);
    assert OccursAt(after.digest, a, lines, |above| + 1);
  }

  lemma RangeInFile(s: Sources, a: Anchor, lines: seq<string>)
    requires InFile(s, a, lines)
    ensures 1 <= a.lineStart <= a.lineEnd <= |lines|
  {}

  // ---------------------------------------------------------------- repair

  /** The anchor with the coordinates its check found. */
  function Repaired(s: Sources, a: Anchor): Anchor
  {
    var r := Check(s, a);
    if !r.status.Moved? || r.movedStart < 1 then a else a.(lineStart := r.movedStart, lineEnd := r.movedEnd)
  }

  /** A window found by a search is found at once by a search that starts there. */
  lemma RelocatedAgain(ix: LineIndex, digest: string -> string, want: string, span: int, origin: int)
    requires Relocated(ix, digest, want, span, origin).Some?
    ensures var start := Relocated(ix, digest, want, span, origin).value;
      && 1 <= start <= |ix.starts| - span + 1 && span >= 1
      && Relocated(ix, digest, want, span, start) == Some(start)
      && Region(ix, start, start + span - 1).Some? && digest(Region(ix, start, start + span - 1).value) == want
  {
    hide Region;
    var last := |ix.starts| - span + 1;
    SearchIsNearest(ix, digest, want, span, Clamp(origin, last), last, 0, MAX_RELOCATION_BYTES);
    FoundIsPaidFor(ix, digest, want, span, Clamp(origin, last), last, 0, MAX_RELOCATION_BYTES);
  }

  /** The lines a search found are judged current in their own range, whatever the anchor's old one. */
  lemma SearchIsCurrent(digest: string -> string, a: Anchor, ix: LineIndex, span: int, origin: int,
      otherwise: AnchorCheck)
    requires Search(digest, a, ix, span, origin, otherwise).status.Moved? && !otherwise.status.Moved?
    ensures var r := Search(digest, a, ix, span, origin, otherwise);
      && 1 <= r.movedStart <= r.movedEnd && r.movedEnd - r.movedStart + 1 == span
      && var b := a.(lineStart := r.movedStart, lineEnd := r.movedEnd);
         && CheckRange(digest, b, ix, b.lineStart, b.lineEnd) == Plain(b, Current, a.contentHash)
         && Search(digest, b, ix, span, b.lineStart, otherwise.(anchor := b)) == r.(anchor := b)
  {
    hide Region, Relocated;
    RelocatedAgain(ix, digest, a.contentHash, span, origin);
  }

  /** An anchor pinned by lines that has moved checks current once it is repaired. */
  lemma RepairedIsCurrent(s: Sources, a: Anchor)
    requires ByLines(s, a) && Check(s, a).status.Moved?
    ensures Check(s, Repaired(s, a)).status.Current?
    ensures Check(s, Repaired(s, a)).Cited() == Check(s, a).Cited()
  {
    hide Search, IndexOf, Region;
    var ix := IndexOf(s.read(s.clean(a.path).value).text);
    if AnchorRegion(s, a, s.read(s.clean(a.path).value).text).Some? {
      var actual := s.digest(Region(ix, a.lineStart, a.lineEnd).value);
      SearchIsCurrent(s.digest, a, ix, Span(a), a.lineStart, Plain(a, Stale, actual));
    } else {
      SearchIsCurrent(s.digest, a, ix, Span(a), a.lineStart, Plain(a, Missing, ""));
    }
  }

  /** Repair is a fixpoint for every anchor, those pinned by symbols included. */
  lemma RepairIsIdempotent(s: Sources, a: Anchor)
    ensures Repaired(s, Repaired(s, a)) == Repaired(s, a)
  {
    hide Search, IndexOf, Region;
    if Check(s, a).status.Moved? {
      if ByLines(s, a) {
        RepairedIsCurrent(s, a);
      } else {
        var data := s.read(s.clean(a.path).value).text;
        if AnchorRegion(s, a, data).None? {
          SearchIsCurrent(s.digest, a, IndexOf(data), Span(a), a.lineStart, Plain(a, Missing, ""));
        } else {
          ResolvedIgnoresLines(s.digest, a, Repaired(s, a), IndexOf(data), AnchorRegion(s, a, data).value.0,
            AnchorRegion(s, a, data).value.1);
        }
      }
    }
  }

  /** A range given from outside is judged the same whatever coordinates the anchor records. */
  lemma ResolvedIgnoresLines(digest: string -> string, a: Anchor, b: Anchor, ix: LineIndex, start: int, end: int)
    requires b == a.(lineStart := b.lineStart, lineEnd := b.lineEnd)
    ensures CheckRange(digest, b, ix, start, end) == CheckRange(digest, a, ix, start, end).(anchor := b)
  {
    hide Region, Relocated;
  }
}
