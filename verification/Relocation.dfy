/** The outward search for lines that have moved: nearest first, under a byte budget. */
module Relocation {
  import opened Wrappers
  import opened SourceLines

  const MAX_RELOCATION_BYTES := 0x200_0000

  /** The digest of the window of `span` lines at `start` is the wanted one. */
  predicate Match(ix: LineIndex, digest: string -> string, want: string, span: int, last: int, start: int)
  {
    1 <= start <= last && Region(ix, start, start + span - 1).Some? &&
    digest(Region(ix, start, start + span - 1).value) == want
  }

  /** The bytes hashed to look at the window at `start`; none when there is no such window. */
  function Size(ix: LineIndex, span: int, last: int, start: int): nat
  {
    if 1 <= start <= last && Region(ix, start, start + span - 1).Some?
    then |Region(ix, start, start + span - 1).value| else 0
  }

  function Distance(origin: int, start: int): nat
  {
    if start < origin then origin - start else start - origin
  }

  function Reach(origin: int, last: int): nat
    requires 1 <= origin <= last
  {
    if origin - 1 > last - origin then origin - 1 else last - origin
  }

  /** What looking at a window does: the budget left, the match, or the end of the search. */
  datatype Look = On(budget: nat) | Hit(start: int) | Exhausted

  function LookAt(ix: LineIndex, digest: string -> string, want: string, span: int, last: int, start: int,
      budget: nat): Look
  {
    if start < 1 || start > last then On(budget)
    else
      var region := Region(ix, start, start + span - 1);
      if region.None? then On(budget)
      else if |region.value| > budget then Exhausted
      else if digest(region.value) == want then Hit(start)
      else On(budget - |region.value|)
  }

  /** The windows at one distance, the later one first. */
  function LookAround(ix: LineIndex, digest: string -> string, want: string, span: int, origin: int, last: int,
                      offset: nat, budget: nat): Look
  {
    var later := LookAt(ix, digest, want, span, last, origin + offset, budget);
    if !later.On? || offset == 0 then later
    else LookAt(ix, digest, want, span, last, origin - offset, later.budget)
  }

  /** The search from distance `offset` on. */
  function SearchFrom(ix: LineIndex, digest: string -> string, want: string, span: int, origin: int, last: int,
                      offset: nat, budget: nat): Option<int>
    requires 1 <= origin <= last
    decreases Reach(origin, last) + 1 - offset
  {
    if origin - offset < 1 && origin + offset > last then None
    else
      match LookAround(ix, digest, want, span, origin, last, offset, budget)
      case Hit(start) => Some(start)
      case Exhausted => None
      case On(left) => SearchFrom(ix, digest, want, span, origin, last, offset + 1, left)
  }

  function Clamp(origin: int, last: int): int
  {
    if origin < 1 then 1 else if origin > last then last else origin
  }

  /** Where the wanted lines are now, nearest to where they were. */
  function Relocated(ix: LineIndex, digest: string -> string, want: string, span: int, origin: int): Option<int>
  {
    var last := |ix.starts| - span + 1;
    if want == "" || span < 1 || span > |ix.starts| then None
    else SearchFrom(ix, digest, want, span, Clamp(origin, last), last, 0, MAX_RELOCATION_BYTES)
  }

  /** The bytes hashed at one distance. */
  ghost function SizeAround(ix: LineIndex, span: int, origin: int, last: int, offset: nat): nat
  {
    Size(ix, span, last, origin + offset) + (if offset == 0 then 0 else Size(ix, span, last, origin - offset))
  }

  /** Looking at one distance goes on, at the price of its bytes, exactly when neither window there matches
      and the budget pays for both; a hit is the later of the matching windows. */
  lemma LookMeans(ix: LineIndex, digest: string -> string, want: string, span: int, origin: int, last: int,
                  offset: nat, budget: nat)
    ensures var look := LookAround(ix, digest, want, span, origin, last, offset, budget);
      && (look.On? ==> look.budget == budget - SizeAround(ix, span, origin, last, offset))
      && (look.On? ==> (!Match(ix, digest, want, span, last, origin + offset) &&
        !Match(ix, digest, want, span, last, origin - offset)))
      && (look.Exhausted? ==> SizeAround(ix, span, origin, last, offset) > budget)
      && (look.Hit? ==> Match(ix, digest, want, span, last, look.start))
      && (look.Hit? && look.start != origin + offset ==>
            look.start == origin - offset && !Match(ix, digest, want, span, last, origin + offset))
  {
    hide Region;
  }

  /** A found window has the wanted digest, none is nearer, and of two equally near the later is taken. */
  ghost predicate Nearest(ix: LineIndex, digest: string -> string, want: string, span: int, origin: int, last: int,
                          offset: nat, found: int)
  {
    Match(ix, digest, want, span, last, found) && Distance(origin, found) >= offset &&
    forall s | Match(ix, digest, want, span, last, s) && Distance(origin, s) >= offset ::
      Distance(origin, found) < Distance(origin, s) || (Distance(origin, found) == Distance(origin, s) && s <= found)
  }

  lemma {:induction false} SearchIsNearest(ix: LineIndex, digest: string -> string, want: string, span: int,
    origin: int,
                                           last: int, offset: nat, budget: nat)
    requires 1 <= origin <= last
    ensures var r := SearchFrom(ix, digest, want, span, origin, last, offset, budget);
      r.Some? ==> Nearest(ix, digest, want, span, origin, last, offset, r.value)
    decreases Reach(origin, last) + 1 - offset
  {
    hide Match, LookAround, SizeAround;
    LookMeans(ix, digest, want, span, origin, last, offset, budget);
    var look := LookAround(ix, digest, want, span, origin, last, offset, budget);
    if look.On? && !(origin - offset < 1 && origin + offset > last) {
      SearchIsNearest(ix, digest, want, span, origin, last, offset + 1, look.budget);
    }
  }

  /** The window found was within the budget. */
  lemma {:induction false} FoundIsPaidFor(ix: LineIndex, digest: string -> string, want: string, span: int, origin: int,
                                          last: int, offset: nat, budget: nat)
    requires 1 <= origin <= last
    ensures var r := SearchFrom(ix, digest, want, span, origin, last, offset, budget);
      r.Some? ==> Size(ix, span, last, r.value) <= budget
    decreases Reach(origin, last) + 1 - offset
  {
    hide Region;
    var look := LookAround(ix, digest, want, span, origin, last, offset, budget);
    if look.On? && !(origin - offset < 1 && origin + offset > last) {
      FoundIsPaidFor(ix, digest, want, span, origin, last, offset + 1, look.budget);
    }
  }

  /** The bytes hashed from distance `offset` up to and including distance `d`. */
  ghost function Cost(ix: LineIndex, span: int, origin: int, last: int, offset: nat, d: nat): nat
    decreases d + 1 - offset
  {
    if offset > d then 0 else SizeAround(ix, span, origin, last, offset) + Cost(ix, span, origin, last, offset + 1, d)
  }

  /** A miss means that every match lies beyond what the budget pays for. */
  lemma {:induction false} SearchMisses(ix: LineIndex, digest: string -> string, want: string, span: int, origin: int,
                                        last: int, offset: nat, budget: nat, s: int)
    requires 1 <= origin <= last && Match(ix, digest, want, span, last, s) && Distance(origin, s) >= offset
    requires SearchFrom(ix, digest, want, span, origin, last, offset, budget).None?
    ensures Cost(ix, span, origin, last, offset, Distance(origin, s)) > budget
    decreases Reach(origin, last) + 1 - offset
  {
    hide Match, LookAround, SizeAround;
    MatchIsInside(ix, digest, want, span, last, s);
    LookMeans(ix, digest, want, span, origin, last, offset, budget);
    var look := LookAround(ix, digest, want, span, origin, last, offset, budget);
    if look.On? {
      SearchMisses(ix, digest, want, span, origin, last, offset + 1, look.budget, s);
    }
  }

  lemma MatchIsInside(ix: LineIndex, digest: string -> string, want: string, span: int, last: int, start: int)
    requires Match(ix, digest, want, span, last, start)
    ensures 1 <= start <= last
  {}

  /** The bytes of all windows that start in `lo` up to but not including `hi`. */
  ghost function Bytes(ix: LineIndex, span: int, last: int, lo: int, hi: int): nat
    decreases hi - lo
  {
    if lo >= hi then 0 else Bytes(ix, span, last, lo, hi - 1) + Size(ix, span, last, hi - 1)
  }

  lemma {:induction false} BytesFront(ix: LineIndex, span: int, last: int, lo: int, hi: int)
    requires lo < hi
    ensures Bytes(ix, span, last, lo, hi) == Size(ix, span, last, lo) + Bytes(ix, span, last, lo + 1, hi)
    decreases hi - lo
  {
    if lo + 1 < hi {
      BytesFront(ix, span, last, lo, hi - 1);
    }
  }

  lemma {:induction false} CostLast(ix: LineIndex, span: int, origin: int, last: int, offset: nat, d: nat)
    requires offset <= d
    ensures Cost(ix, span, origin, last, offset, d) ==
      (if offset == d then 0 else Cost(ix, span, origin, last, offset, d - 1)) + SizeAround(ix, span, origin, last, d)
    decreases d - offset
  {
    if offset < d {
      CostLast(ix, span, origin, last, offset + 1, d);
    }
  }

  /** The distances up to `d` cover the windows around the origin, each once. */
  lemma {:induction false} CostIsBytes(ix: LineIndex, span: int, origin: int, last: int, d: nat)
    ensures Cost(ix, span, origin, last, 0, d) == Bytes(ix, span, last, origin - d, origin + d + 1)
    decreases d
  {
    CostLast(ix, span, origin, last, 0, d);
    if d > 0 {
      CostIsBytes(ix, span, origin, last, d - 1);
      BytesFront(ix, span, last, origin - d, origin + d);
    } else {
      assert Bytes(ix, span, last, origin, origin) == 0;
    }
  }

  /** Windows outside the file have no bytes. */
  lemma {:induction false} BytesWithin(ix: LineIndex, span: int, last: int, lo: int, hi: int)
    ensures Bytes(ix, span, last, lo, hi) <= Bytes(ix, span, last, 1, last + 1)
    decreases hi - lo
  {
    if lo < hi {
      if hi - 1 > last {
        BytesWithin(ix, span, last, lo, hi - 1);
      } else if lo < 1 {
        BytesFront(ix, span, last, lo, hi);
        BytesWithin(ix, span, last, lo + 1, hi);
      } else {
        BytesNested(ix, span, last, lo, hi);
      }
    }
  }

  lemma {:induction false} BytesNested(ix: LineIndex, span: int, last: int, lo: int, hi: int)
    requires 1 <= lo <= hi <= last + 1
    ensures Bytes(ix, span, last, lo, hi) <= Bytes(ix, span, last, 1, last + 1)
    decreases lo - 1 + (last + 1 - hi)
  {
    if hi <= last {
      BytesNested(ix, span, last, lo, hi + 1);
    } else if lo > 1 {
      BytesFront(ix, span, last, lo - 1, hi);
      BytesNested(ix, span, last, lo - 1, hi);
    }
  }

  /** Relocation is nearest-first. */
  lemma RelocationIsNearest(ix: LineIndex, digest: string -> string, want: string, span: int, origin: int)
    requires Relocated(ix, digest, want, span, origin).Some?
    ensures var last := |ix.starts| - span + 1;
      Nearest(ix, digest, want, span, Clamp(origin, last), last, 0, Relocated(ix, digest, want, span, origin).value)
  {
    hide Nearest, Match;
    var last := |ix.starts| - span + 1;
    SearchIsNearest(ix, digest, want, span, Clamp(origin, last), last, 0, MAX_RELOCATION_BYTES);
  }

  /** A miss is final: every match lies beyond what the byte cap pays for, so there is none when all windows fit it. */
  lemma RelocationIsComplete(ix: LineIndex, digest: string -> string, want: string, span: int, origin: int)
    requires want != "" && 1 <= span <= |ix.starts| && Relocated(ix, digest, want, span, origin).None?
    ensures var last := |ix.starts| - span + 1;
      && (forall s | Match(ix, digest, want, span, last, s) ::
            Cost(ix, span, Clamp(origin, last), last, 0, Distance(Clamp(origin, last), s)) > MAX_RELOCATION_BYTES)
      && (Bytes(ix, span, last, 1, last + 1) <= MAX_RELOCATION_BYTES ==>
        forall s :: !Match(ix, digest, want, span, last, s))
  {
    hide Match, Size;
    var last := |ix.starts| - span + 1;
    var o := Clamp(origin, last);
    forall s | Match(ix, digest, want, span, last, s)
      ensures Cost(ix, span, o, last, 0, Distance(o, s)) > MAX_RELOCATION_BYTES
      ensures Bytes(ix, span, last, 1, last + 1) > MAX_RELOCATION_BYTES
    {
      var d := Distance(o, s);
      SearchMisses(ix, digest, want, span, o, last, 0, MAX_RELOCATION_BYTES, s);
      CostIsBytes(ix, span, o, last, d);
      BytesWithin(ix, span, last, o - d, o + d + 1);
    }
  }

  /** The search as it runs, outward from the clamped origin under the byte budget. */
  method RelocateRegion(ix: LineIndex, digest: string -> string, want: string, span: int, origin: int)
    returns (start: int, stop: int, found: bool)
    ensures var r := Relocated(ix, digest, want, span, origin);
      found == r.Some? && (found ==> start == r.value && stop == start + span - 1) && (!found ==> start == stop == 0)
  {
    hide Region;
    var total := |ix.starts|;
    start, stop, found := 0, 0, false;
    if want == "" || span < 1 || span > total {
      return;
    }
    var last := total - span + 1;
    var at := origin;
    if at < 1 {
      at := 1;
    } else if at > last {
      at := last;
    }
    var budget: nat := MAX_RELOCATION_BYTES;
    var offset: nat := 0;
    while at - offset >= 1 || at + offset <= last
      invariant start == stop == 0 && !found
      invariant SearchFrom(ix, digest, want, span, at, last, offset, budget) ==
        Relocated(ix, digest, want, span, origin)
      decreases Reach(at, last) + 1 - offset
    {
      hide Relocated, LookAt;
      var look := ProbeAt(ix, digest, want, span, last, at + offset, budget);
      if look.On? && offset > 0 {
        look := ProbeAt(ix, digest, want, span, last, at - offset, look.budget);
      }
      assert look == LookAround(ix, digest, want, span, at, last, offset, budget);
      hide LookAround;
      match look {
        case Hit(probe) => return probe, probe + span - 1, true;
        case Exhausted => return;
        case On(left) => budget := left;
      }
      offset := offset + 1;
    }
  }

  /** Looks at one window: skips it outside the file, pays for its bytes, then compares digests. */
  method ProbeAt(ix: LineIndex, digest: string -> string, want: string, span: int, last: int, start: int, budget: nat)
    returns (look: Look)
    ensures look == LookAt(ix, digest, want, span, last, start, budget)
  {
    if start < 1 || start > last {
      return On(budget);
    }
    var region := Region(ix, start, start + span - 1);
    if region.None? {
      return On(budget);
    }
    var left := budget - |region.value|;
    if left < 0 {
      return Exhausted;
    }
    if digest(region.value) == want {
      return Hit(start);
    }
    return On(left);
  }
}
