/** The marker-owned block of the index: replacing it again undoes the replacement before, unless a stray start
    marker without an end stands in the file or a listed document brings an end marker of its own. */
module OwnedBlock {
  import opened DecisionTypes
  import opened DecisionModel

  // ---------------------------------------------------------------- searching

  predicate OccursAt(s: Bytes, pat: Bytes, i: nat)
  {
    i + |pat| <= |s| && s[i..i + |pat|] == pat
  }

  predicate Contains(s: Bytes, pat: Bytes)
  {
    Find(s, pat, 0) < |s|
  }

  /** The search returns the first occurrence. */
  lemma {:induction false} FindIsFirst(s: Bytes, pat: Bytes, from: nat, k: nat)
    requires from <= k <= |s| && pat != "" && (k < |s| ==> OccursAt(s, pat, k))
    requires forall i | from <= i < k :: !OccursAt(s, pat, i)
    ensures Find(s, pat, from) == k
    decreases |s| - from
  {
    if from < k {
      assert !OccursAt(s, pat, from);
      FindIsFirst(s, pat, from + 1, k);
    }
  }

  lemma {:induction false} FoundIsFirst(s: Bytes, pat: Bytes, from: nat, i: nat)
    requires from <= |s| && from <= i < Find(s, pat, from)
    ensures !OccursAt(s, pat, i)
    decreases |s| - from
  {
    if from < i {
      FoundIsFirst(s, pat, from + 1, i);
    }
  }

  lemma OccurrenceIsFound(s: Bytes, pat: Bytes, from: nat, i: nat)
    requires pat != "" && from <= i && OccursAt(s, pat, i)
    ensures Find(s, pat, from) <= i < |s|
  {
    if i < Find(s, pat, from) {
      FoundIsFirst(s, pat, from, i);
    }
  }

  lemma MarkersAreSome()
    ensures INDEX_START != "" && INDEX_END != ""
    ensures forall i | 0 <= i < |INDEX_START| :: INDEX_START[i] != '\n'
    ensures forall i | 0 <= i < |INDEX_END| :: INDEX_END[i] != '\n'
  {}

  /** A text of whole lines. */
  predicate Lines(s: Bytes)
  {
    s == "" || EndsInNewline(s)
  }

  lemma MismatchAt(s: Bytes, pat: Bytes, i: nat, k: nat)
    requires k < |pat| && i + k < |s| && s[i + k] != pat[k]
    ensures !OccursAt(s, pat, i)
  {
    if i + |pat| <= |s| {
      assert s[i..i + |pat|][k] == s[i + k];
    }
  }

  /** A marker cannot begin in one line and end in the next. */
  lemma OccursInParts(u: Bytes, v: Bytes, pat: Bytes, i: nat)
    requires Lines(u) && pat != "" && forall k | 0 <= k < |pat| :: pat[k] != '\n'
    ensures OccursAt(u + v, pat, i) <==> OccursAt(u, pat, i) || (i >= |u| && OccursAt(v, pat, i - |u|))
  {
    var n := |pat|;
    if i + n <= |u| {
      assert (u + v)[i..i + n] == u[i..i + n];
    } else if i < |u| {
      assert (u + v)[|u| - 1] == '\n' && pat[|u| - 1 - i] != '\n';
      MismatchAt(u + v, pat, i, |u| - 1 - i);
    } else if i + n <= |u + v| {
      assert (u + v)[i..i + n] == v[i - |u|..i - |u| + n];
    }
  }

  /** A text of whole lines and what follows it hold a marker exactly when one of the two does. */
  lemma ContainsInParts(u: Bytes, v: Bytes, pat: Bytes)
    requires Lines(u) && pat != "" && forall k | 0 <= k < |pat| :: pat[k] != '\n'
    ensures Contains(u + v, pat) <==> Contains(u, pat) || Contains(v, pat)
  {
    if Contains(u + v, pat) {
      SomePartContains(u, v, pat);
    }
    hide Find;
    if Contains(u, pat) {
      var i := Find(u, pat, 0);
      OccursInParts(u, v, pat, i);
      OccurrenceIsFound(u + v, pat, 0, i);
    } else if Contains(v, pat) {
      var i := Find(v, pat, 0);
      OccursInParts(u, v, pat, |u| + i);
      OccurrenceIsFound(u + v, pat, 0, |u| + i);
    }
  }

  lemma SomePartContains(u: Bytes, v: Bytes, pat: Bytes)
    requires Lines(u) && pat != "" && (forall k | 0 <= k < |pat| :: pat[k] != '\n') && Contains(u + v, pat)
    ensures Contains(u, pat) || Contains(v, pat)
  {
    hide Find;
    var i := Find(u + v, pat, 0);
    OccursInParts(u, v, pat, i);
    hide Lines;
    if OccursAt(u, pat, i) {
      OccurrenceIsFound(u, pat, 0, i);
    } else {
      OccurrenceIsFound(v, pat, 0, i - |u|);
    }
  }

  // ---------------------------------------------------------------- blocks

  /** A text that begins with the start marker, holds an end marker and ends with a line end. */
  predicate Framed(block: Bytes)
  {
    INDEX_START <= block && EndsInNewline(block) && Contains(block, INDEX_END)
  }

  /** Where the block that begins at `start` ends: behind the first end marker and its line end. */
  function BlockEnd(data: Bytes, start: nat): nat
    requires start <= |data|
  {
    var stop := Find(data, INDEX_END, start) + |INDEX_END|;
    if stop < |data| && data[stop] == '\n' then stop + 1 else stop
  }

  /** What stands in a block behind its own first end marker. */
  function Tail(block: Bytes): Bytes
  {
    if BlockEnd(block, 0) <= |block| then block[BlockEnd(block, 0)..] else ""
  }

  /** No start marker stands in the file without an end marker behind it. */
  predicate Balanced(data: Bytes)
  {
    var start := Find(data, INDEX_START, 0);
    start < |data| ==> Find(data, INDEX_END, start) < |data|
  }

  lemma FramedEnds(block: Bytes)
    requires Framed(block)
    ensures |INDEX_START| <= |block| && Find(block, INDEX_END, 0) + |INDEX_END| + 1 <= |block|
    ensures BlockEnd(block, 0) <= |block| && Tail(block) == block[BlockEnd(block, 0)..]
    ensures Tail(block) == "" <==> Find(block, INDEX_END, 0) + |INDEX_END| + 1 == |block|
  {
    MarkersAreSome();
    hide Find, INDEX_START, INDEX_END;
    LineEndIsBehind(block, INDEX_END, Find(block, INDEX_END, 0));
    hide Framed, Contains;
    assert BlockEnd(block, 0) <= |block|;
    assert |Tail(block)| == |block| - BlockEnd(block, 0);
  }

  lemma LineEndIsBehind(s: Bytes, pat: Bytes, i: nat)
    requires EndsInNewline(s) && OccursAt(s, pat, i) && pat != "" && pat[|pat| - 1] != '\n'
    ensures i + |pat| < |s|
  {
    assert s[i..i + |pat|][|pat| - 1] == s[i + |pat| - 1];
  }

  lemma SliceInside(front: Bytes, block: Bytes, back: Bytes, i: nat, n: nat)
    requires i + n <= |block|
    ensures (front + block + back)[|front| + i..|front| + i + n] == block[i..i + n]
  {}

  /** The first occurrence in a block is the first in a file that has none before the block. */
  lemma FirstInFile(front: Bytes, block: Bytes, back: Bytes, pat: Bytes, from: nat)
    requires pat != "" && Contains(block, pat) && from <= |front|
    requires forall i | from <= i < |front| :: !OccursAt(front + block + back, pat, i)
    ensures Find(front + block + back, pat, from) == |front| + Find(block, pat, 0)
  {
    hide Find;
    var data, n, k := front + block + back, |pat|, Find(block, pat, 0);
    SliceInside(front, block, back, k, n);
    forall i | |front| <= i < |front| + k ensures !OccursAt(data, pat, i) {
      FoundIsFirst(block, pat, 0, i - |front|);
      SliceInside(front, block, back, i - |front|, n);
    }
    FindIsFirst(data, pat, from, |front| + k);
  }

  lemma ByteInside(front: Bytes, block: Bytes, back: Bytes, i: nat)
    requires i < |block|
    ensures |front| + i < |front + block + back| && (front + block + back)[|front| + i] == block[i]
  {}

  /** A block ends in a file where it ends by itself, if no end marker stands before it. */
  lemma BlockEndInFile(front: Bytes, block: Bytes, back: Bytes, from: nat)
    requires Framed(block) && from <= |front|
    requires forall i | from <= i < |front| :: !OccursAt(front + block + back, INDEX_END, i)
    ensures Find(front + block + back, INDEX_END, from) < |front + block + back|
    ensures BlockEnd(front + block + back, from) == |front| + BlockEnd(block, 0) <= |front| + |block|
  {
    MarkersAreSome();
    FramedEnds(block);
    hide Find, OccursAt, INDEX_START, INDEX_END;
    FirstInFile(front, block, back, INDEX_END, from);
    hide Framed, Contains;
    ByteInside(front, block, back, Find(block, INDEX_END, 0) + |INDEX_END|);
  }

  /** A start marker with an end marker behind it: what lies between is replaced. */
  lemma ReplacesPresent(data: Bytes, block: Bytes, start: nat)
    requires start < |data| && Find(data, INDEX_START, 0) == start && Find(data, INDEX_END, start) < |data|
    ensures BlockEnd(data, start) <= |data|
    ensures ReplaceOwnedBlock(data, block) == data[..start] + block + data[BlockEnd(data, start)..]
  {
    hide Find, INDEX_START, INDEX_END, Terminated;
    var stop := Find(data, INDEX_END, start) + |INDEX_END|;
    assert BlockEnd(data, start) == if stop < |data| && data[stop] == '\n' then stop + 1 else stop;
  }

  lemma StartIsThere(data: Bytes, start: nat)
    requires start < |data| && Find(data, INDEX_START, 0) == start
    ensures start + |INDEX_START| <= |data| && data[start..start + |INDEX_START|] == INDEX_START
  {
    hide Find, INDEX_START;
  }

  /** Without one, the block is appended. */
  lemma ReplaceAppends(data: Bytes, block: Bytes)
    requires var start := Find(data, INDEX_START, 0); start == |data| || Find(data, INDEX_END, start) == |data|
    ensures ReplaceOwnedBlock(data, block) == Terminated(data) + block
  {
    hide Find, INDEX_START, INDEX_END, Terminated;
  }

  /** Where a block stands behind text that has no start marker, it is replaced up to its first end marker, and what it
      has behind that stays in the file. */
  lemma ReplacesFramed(front: Bytes, block: Bytes, back: Bytes, other: Bytes)
    requires Framed(block) && Find(front + block + back, INDEX_START, 0) == |front|
    ensures ReplaceOwnedBlock(front + block + back, other) == front + other + Tail(block) + back
  {
    FramedEnds(block);
    BlockEndInFile(front, block, back, |front|);
    hide *;
    ReplacesPresent(front + block + back, other, |front|);
    Assembles(front, block, back, other, BlockEnd(block, 0));
  }

  lemma Assembles(front: Bytes, block: Bytes, back: Bytes, other: Bytes, i: nat)
    requires i <= |block|
    ensures (front + block + back)[..|front|] + other + (front + block + back)[|front| + i..] ==
      front + other + block[i..] + back
  {
    Splits(front, block, back, i);
    assert front + other + (block[i..] + back) == front + other + block[i..] + back;
  }

  lemma Splits(front: Bytes, block: Bytes, back: Bytes, i: nat)
    requires i <= |block|
    ensures (front + block + back)[..|front|] == front && (front + block + back)[|front| + i..] == block[i..] + back
  {}

  // ---------------------------------------------------------------- the first start marker

  lemma SameSlice(a: Bytes, b: Bytes, upto: nat, i: nat, n: nat)
    requires upto <= |a| && a[..upto] <= b && i + n <= upto
    ensures a[i..i + n] == b[i..i + n]
  {
    assert b[..upto] == a[..upto];
    assert a[..upto][i..i + n] == a[i..i + n];
    assert b[..upto][i..i + n] == b[i..i + n];
  }

  /** The first start marker stays the first in every text that begins alike up to its end. */
  lemma StartStaysFirst(data: Bytes, start: nat, other: Bytes)
    requires start < |data| && Find(data, INDEX_START, 0) == start
    requires start + |INDEX_START| <= |data| && data[..start + |INDEX_START|] <= other
    ensures Find(other, INDEX_START, 0) == start
  {
    MarkersAreSome();
    hide INDEX_START, INDEX_END;
    var n := |INDEX_START|;
    SameSlice(data, other, start + n, start, n);
    assert OccursAt(other, INDEX_START, start);
    forall i | 0 <= i < start ensures !OccursAt(other, INDEX_START, i) {
      FoundIsFirst(data, INDEX_START, 0, i);
      SameSlice(data, other, start + n, i, n);
    }
    hide Find;
    FindIsFirst(other, INDEX_START, 0, start);
  }

  /** A marker behind the end of a terminated text cannot begin inside it. */
  lemma NoMarkerAcrossEnd(data: Bytes, from: nat, marker: Bytes, tail: Bytes)
    requires (marker == INDEX_START || marker == INDEX_END) && from <= |data| && Find(data, marker, from) == |data|
    ensures forall i | from <= i < |Terminated(data)| :: !OccursAt(Terminated(data) + tail, marker, i)
  {
    MarkersAreSome();
    hide INDEX_START, INDEX_END;
    var t, n := Terminated(data), |marker|;
    forall i | from <= i < |t| ensures !OccursAt(t + tail, marker, i) {
      if i + n <= |data| {
        FoundIsFirst(data, marker, from, i);
        assert (t + tail)[i..i + n] == data[i..i + n];
      } else if i + n <= |t + tail| {
        assert t[|t| - 1] == '\n';
        assert (t + tail)[i..i + n][|t| - 1 - i] == '\n';
      }
    }
  }

  /** A block appended to a text without a start marker is the first block. */
  lemma AppendedIsFirst(data: Bytes, block: Bytes)
    requires Find(data, INDEX_START, 0) == |data| && INDEX_START <= block
    ensures Find(Terminated(data) + block, INDEX_START, 0) == |Terminated(data)|
  {
    MarkersAreSome();
    hide INDEX_START, INDEX_END;
    var t, n := Terminated(data), |INDEX_START|;
    assert OccursAt(t + block, INDEX_START, |t|) by {
      assert (t + block)[|t|..|t| + n] == block[..n];
    }
    NoMarkerAcrossEnd(data, 0, INDEX_START, block);
    FindIsFirst(t + block, INDEX_START, 0, |t|);
  }

  // ---------------------------------------------------------------- replacing twice

  lemma TwiceWithoutMarker(data: Bytes, block: Bytes, other: Bytes)
    requires Framed(block) && Find(data, INDEX_START, 0) == |data|
    ensures ReplaceOwnedBlock(ReplaceOwnedBlock(data, block), other) == ReplaceOwnedBlock(data, other) + Tail(block)
  {
    hide Find, ReplaceOwnedBlock, Tail, INDEX_START, INDEX_END;
    var t := Terminated(data);
    ReplaceAppends(data, block);
    ReplaceAppends(data, other);
    AppendedIsFirst(data, block);
    hide Terminated, Framed;
    assert t + block + "" == t + block;
    ReplacesFramed(t, block, "", other);
  }

  /** What the first replacement leaves of its block in the file stands between the second block and the rest. */
  lemma TwiceWithBlock(data: Bytes, start: nat, block: Bytes, other: Bytes)
    requires Framed(block) && start < |data| && Find(data, INDEX_START, 0) == start &&
      Find(data, INDEX_END, start) < |data|
    ensures BlockEnd(data, start) <= |data|
    ensures ReplaceOwnedBlock(ReplaceOwnedBlock(data, block), other) ==
      data[..start] + other + Tail(block) + data[BlockEnd(data, start)..]
    ensures ReplaceOwnedBlock(data, other) == data[..start] + other + data[BlockEnd(data, start)..]
  {
    assert INDEX_START <= block;
    hide Find, ReplaceOwnedBlock, BlockEnd, Tail, Framed, INDEX_START, INDEX_END;
    StartIsThere(data, start);
    ReplacesPresent(data, block, start);
    ReplacesPresent(data, other, start);
    var back := data[BlockEnd(data, start)..];
    KeepsPrefix(data, start, INDEX_START, block, back);
    StartStaysFirst(data, start, data[..start] + block + back);
    ReplacesFramed(data[..start], block, back, other);
  }

  lemma KeepsPrefix(data: Bytes, start: nat, marker: Bytes, block: Bytes, back: Bytes)
    requires start + |marker| <= |data| && data[start..start + |marker|] == marker && marker <= block
    ensures data[..start + |marker|] <= data[..start] + block + back
  {
    assert data[..start + |marker|] == data[..start] + marker;
    assert block == marker + block[|marker|..];
  }

  lemma StartFits(data: Bytes, start: nat)
    requires start < |data| && Find(data, INDEX_START, 0) == start
    ensures start + |INDEX_START| <= |data| && data[..start + |INDEX_START|] <= Terminated(data)
    ensures data[..start] <= Terminated(data)
  {
    hide Find, INDEX_START;
  }

  /** A stray start marker swallows what stands between it and the block appended behind it. */
  lemma StrayStartSwallows(data: Bytes, start: nat, block: Bytes, other: Bytes)
    requires Framed(block) && start < |data| && Find(data, INDEX_START, 0) == start &&
      Find(data, INDEX_END, start) == |data|
    ensures ReplaceOwnedBlock(ReplaceOwnedBlock(data, block), other) == data[..start] + other + Tail(block)
    ensures ReplaceOwnedBlock(data, other) == Terminated(data) + other
  {
    FramedEnds(block);
    NoMarkerAcrossEnd(data, start, INDEX_END, block);
    StartFits(data, start);
    ReplaceAppends(data, block);
    ReplaceAppends(data, other);
    var t := Terminated(data);
    assert t + block + "" == t + block;
    BlockEndInFile(t, block, "", start);
    hide *;
    ExtendsPrefix(data, start + |INDEX_START|, t, block);
    StartStaysFirst(data, start, t + block);
    ReplacesPresent(t + block, other, start);
    Splits(t, block, "", BlockEnd(block, 0));
    ExtendsPrefix(data, start, t, block);
    assert block[BlockEnd(block, 0)..] + "" == block[BlockEnd(block, 0)..];
  }

  lemma ExtendsPrefix(data: Bytes, n: nat, t: Bytes, block: Bytes)
    requires n <= |data| && data[..n] <= t
    ensures data[..n] <= t + block && (t + block)[..n] == data[..n]
  {
    assert data[..n] == t[..n];
  }

  /** What a stray start marker has swallowed is never made up for by what the block left. */
  lemma SwallowingIsSeen(data: Bytes, start: nat, other: Bytes, tail: Bytes)
    requires Contains(other, INDEX_END) && start < |data| && Find(data, INDEX_START, 0) == start
    requires Find(data, INDEX_END, start) == |data|
    ensures data[..start] + other + tail != Terminated(data) + other
  {
    StartFits(data, start);
    NoMarkerAcrossEnd(data, start, INDEX_END, other);
    hide INDEX_START, INDEX_END;
    ShiftedDiffers(data[..start], Terminated(data), other, tail, INDEX_END);
  }

  /** A text that holds a pattern is not moved back over text that has none. */
  lemma ShiftedDiffers(front: Bytes, t: Bytes, other: Bytes, tail: Bytes, pat: Bytes)
    requires Contains(other, pat) && |front| < |t| && forall i | |front| <= i < |t| :: !OccursAt(t + other, pat, i)
    ensures front + other + tail != t + other
  {
    hide Find;
    var n, e := |pat|, Find(other, pat, 0);
    var at := |front| + e;
    SliceInside(front, other, tail, e, n);
    if front + other + tail == t + other {
      assert OccursAt(t + other, pat, at);
      assert (t + other)[at..at + n] == other[at - |t|..at - |t| + n];
      FoundIsFirst(other, pat, 0, at - |t|);
    }
  }

  /** Replacing one block by another is replacing what stood there before, exactly when the markers of the file are
      balanced and the block has nothing behind its first end marker. */
  lemma ReplacingUndoes(data: Bytes, block: Bytes, other: Bytes)
    requires Framed(block) && Framed(other)
    ensures ReplaceOwnedBlock(ReplaceOwnedBlock(data, block), other) == ReplaceOwnedBlock(data, other) <==>
      Balanced(data) && Tail(block) == ""
  {
    assert Contains(other, INDEX_END);
    var start := Find(data, INDEX_START, 0);
    assert Balanced(data) <==> start == |data| || Find(data, INDEX_END, start) < |data|;
    hide *;
    if start == |data| {
      TwiceWithoutMarker(data, block, other);
      InsertedIsSeen(ReplaceOwnedBlock(data, other), Tail(block), "");
    } else if Find(data, INDEX_END, start) < |data| {
      TwiceWithBlock(data, start, block, other);
      InsertedIsSeen(data[..start] + other, Tail(block), data[BlockEnd(data, start)..]);
    } else {
      StrayStartSwallows(data, start, block, other);
      SwallowingIsSeen(data, start, other, Tail(block));
    }
  }

  lemma InsertedIsSeen(front: Bytes, tail: Bytes, back: Bytes)
    ensures front + tail + back == front + back <==> tail == ""
    ensures front + tail == front <==> tail == ""
  {
    assert |front + tail + back| == |front + back| + |tail|;
    assert tail == "" ==> front + tail == front;
    assert |front + tail| == |front| + |tail|;
  }

  // ---------------------------------------------------------------- the generated block

  /** No line of the generated listing holds an end marker. */
  predicate NoLineEndsBlock(w: World, docs: seq<Document>)
  {
    forall i | 0 <= i < |docs| :: !Contains(IndexLine(w, docs[i]), INDEX_END)
  }

  lemma {:induction false} ListingContains(w: World, docs: seq<Document>)
    ensures Lines(IndexLines(w, docs))
    ensures Contains(IndexLines(w, docs), INDEX_END) <==> !NoLineEndsBlock(w, docs)
  {
    MarkersAreSome();
    hide Find, INDEX_END, IndexLine;
    if docs != [] {
      LineIsLine(w, docs[0]);
      ListingContains(w, docs[1..]);
      ContainsInParts(IndexLine(w, docs[0]), IndexLines(w, docs[1..]), INDEX_END);
      RestHasNone(w, docs);
    }
  }

  lemma RestHasNone(w: World, docs: seq<Document>)
    requires docs != []
    ensures NoLineEndsBlock(w, docs) <==> !Contains(IndexLine(w, docs[0]), INDEX_END) && NoLineEndsBlock(w, docs[1..])
  {
    hide Contains, INDEX_END, IndexLine;
    assert docs == [docs[0]] + docs[1..];
    if !NoLineEndsBlock(w, docs[1..]) {
      var i :| 0 <= i < |docs[1..]| && Contains(IndexLine(w, docs[1..][i]), INDEX_END);
      assert docs[1..][i] == docs[i + 1];
    }
  }

  lemma LineIsLine(w: World, doc: Document)
    ensures Lines(IndexLine(w, doc))
  {}

  function Listing(w: World, docs: seq<Document>): Bytes
  {
    if docs == [] then "_No concepts yet._\n" else IndexLines(w, docs)
  }

  lemma FixedTextHasNoEnd()
    ensures !Contains("_No concepts yet._\n", INDEX_END)
    ensures !Contains(INDEX_START, INDEX_END) && !Contains(INDEX_START + "\n", INDEX_END)
  {
    FindIsFirst("_No concepts yet._\n", INDEX_END, 0, |"_No concepts yet._\n"|);
    StartHasNoEnd(INDEX_START);
    StartHasNoEnd(INDEX_START + "\n");
  }

  lemma StartHasNoEnd(s: Bytes)
    requires s == INDEX_START || s == INDEX_START + "\n"
    ensures !Contains(s, INDEX_END)
  {
    forall i | 0 <= i < |s| ensures !OccursAt(s, INDEX_END, i) {
      if i <= 3 {
        assert i == 0 || s[i] != INDEX_END[0];
        MismatchAt(s, INDEX_END, i, if i == 0 then 17 else 0);
      }
    }
    FindIsFirst(s, INDEX_END, 0, |s|);
  }

  /** The text before the closing marker of a generated block holds an end marker exactly when some line does. */
  lemma HeadContains(w: World, docs: seq<Document>)
    ensures Lines(INDEX_START + "\n" + Listing(w, docs))
    ensures Contains(INDEX_START + "\n" + Listing(w, docs), INDEX_END) <==> !NoLineEndsBlock(w, docs)
  {
    FixedTextHasNoEnd();
    ListingContains(w, docs);
    MarkersAreSome();
    hide Contains, INDEX_START, INDEX_END, IndexLines;
    ContainsInParts(INDEX_START + "\n", Listing(w, docs), INDEX_END);
  }

  /** A generated block is framed, and ends at its first end marker exactly when no line brings an earlier one. */
  lemma GeneratedBlock(w: World, docs: seq<Document>)
    ensures Framed(IndexBlock(w, docs))
    ensures Tail(IndexBlock(w, docs)) == "" <==> NoLineEndsBlock(w, docs)
  {
    HeadContains(w, docs);
    hide Find, Contains, INDEX_START, INDEX_END, NoLineEndsBlock, IndexLines, Tail, BlockEnd;
    var u, b := INDEX_START + "\n" + Listing(w, docs), IndexBlock(w, docs);
    assert b == u + (INDEX_END + "\n");
    ClosedBy(u);
    hide Lines;
    assert INDEX_START <= b && EndsInNewline(b);
    FramedEnds(b);
  }

  /** Behind whole lines, the closing marker is the first end marker exactly when the lines have none. */
  lemma ClosedBy(u: Bytes)
    requires Lines(u)
    ensures Contains(u + (INDEX_END + "\n"), INDEX_END)
    ensures Find(u + (INDEX_END + "\n"), INDEX_END, 0) == |u| <==> !Contains(u, INDEX_END)
  {
    MarkersAreSome();
    hide INDEX_END, Find;
    var v := INDEX_END + "\n";
    assert OccursAt(v, INDEX_END, 0);
    ClosedByFirst(u, v, INDEX_END);
  }

  lemma ClosedByFirst(u: Bytes, v: Bytes, pat: Bytes)
    requires Lines(u) && OccursAt(v, pat, 0) && pat != "" && forall k | 0 <= k < |pat| :: pat[k] != '\n'
    ensures Find(u + v, pat, 0) <= |u| < |u + v|
    ensures Find(u + v, pat, 0) == |u| <==> !Contains(u, pat)
  {
    hide Find;
    OccursInParts(u, v, pat, |u|);
    OccurrenceIsFound(u + v, pat, 0, |u|);
    var k := Find(u + v, pat, 0);
    OccursInParts(u, v, pat, k);
    if k < |u| {
      OccurrenceIsFound(u, pat, 0, k);
    }
    if Contains(u, pat) {
      var i := Find(u, pat, 0);
      OccursInParts(u, v, pat, i);
      OccurrenceIsFound(u + v, pat, 0, i);
    }
  }

  /** Regenerating the listing twice is regenerating it once, exactly when the markers in the file are balanced and no
      line of the first listing holds an end marker. */
  lemma ReplacingTwiceIsOnce(w: World, data: Bytes, docs: seq<Document>, later: seq<Document>)
    ensures Balanced(data) && NoLineEndsBlock(w, docs) <==>
      ReplaceOwnedBlock(ReplaceOwnedBlock(data, IndexBlock(w, docs)), IndexBlock(w, later)) ==
        ReplaceOwnedBlock(data, IndexBlock(w, later))
  {
    hide *;
    GeneratedBlock(w, docs);
    GeneratedBlock(w, later);
    ReplacingUndoes(data, IndexBlock(w, docs), IndexBlock(w, later));
  }

  /** A title that is the end marker, in an empty file. */
  lemma EndMarkerTitleFails(w: World, later: seq<Document>)
    ensures var docs := [Document("a.md", INDEX_END, "note", "")];
      ReplaceOwnedBlock(ReplaceOwnedBlock("", IndexBlock(w, docs)), IndexBlock(w, later)) !=
      ReplaceOwnedBlock("", IndexBlock(w, later))
  {
    MarkersAreSome();
    hide Find, ReplaceOwnedBlock, IndexBlock, INDEX_START, INDEX_END;
    var doc := Document("a.md", INDEX_END, "note", "");
    var line := IndexLine(w, doc);
    assert OccursAt(line, INDEX_END, 3);
    OccurrenceIsFound(line, INDEX_END, 0, 3);
    assert Contains(IndexLine(w, [doc][0]), INDEX_END);
    ReplacingTwiceIsOnce(w, "", [doc], later);
  }

  /** A lone start marker, and no documents at all. */
  lemma LoneStartFails(w: World)
    ensures ReplaceOwnedBlock(ReplaceOwnedBlock(INDEX_START, IndexBlock(w, [])), IndexBlock(w, [])) !=
      ReplaceOwnedBlock(INDEX_START, IndexBlock(w, []))
  {
    FixedTextHasNoEnd();
    assert !Balanced(INDEX_START);
    hide ReplaceOwnedBlock, IndexBlock, INDEX_START;
    ReplacingTwiceIsOnce(w, INDEX_START, [], []);
  }
}
